/** src/packet_parser.cpp: Ethernet, IPv4 (section 3.1 of RFC 791), TCP (section 3.1 of RFC 9293) and UDP. */
module PacketParser {
  import opened Prelude
  import opened Types

  const ETHERTYPE_IPV4: u16 := 0x0800
  const TCP: byte := 6
  const UDP: byte := 17

  datatype ParsedPacket = ParsedPacket(
    hasEth: bool, etherType: u16,
    hasIp: bool, ipVersion: byte, ttl: byte, protocol: byte, srcIp: u32, dstIp: u32,
    hasTcp: bool, hasUdp: bool, srcPort: u16, dstPort: u16, tcpFlags: byte, seqNum: u32, ackNum: u32,
    payloadOffset: nat, payloadLength: nat)

  const BLANK := ParsedPacket(false, 0, false, 0, 0, 0, 0, 0, false, false, 0, 0, 0, 0, 0, 0, 0)

  // ----- what an accepted frame parses to -----

  /** Header length in bytes of the IPv4 header at 14, and of the TCP header at `k`. */
  function IpLength(f: seq<byte>): nat
    requires 14 < |f|
  {
    f[14] % 16 * 4
  }

  function TcpLength(f: seq<byte>, k: nat): nat
    requires k + 13 <= |f|
  {
    f[k + 12] / 16 * 4
  }

  predicate IpOk(f: seq<byte>) {
    |f| >= 34 && f[14] / 16 == 4 && 20 <= IpLength(f) && 14 + IpLength(f) <= |f|
  }

  predicate TcpOk(f: seq<byte>, k: nat) {
    k + 20 <= |f| && 20 <= TcpLength(f, k) && k + TcpLength(f, k) <= |f|
  }

  function EthFields(f: seq<byte>): ParsedPacket
    requires |f| >= 14
  {
    BLANK.(hasEth := true, etherType := U16At(f, 12), hasIp := U16At(f, 12) == ETHERTYPE_IPV4)
  }

  function IpFields(f: seq<byte>): ParsedPacket
    requires IpOk(f)
  {
    EthFields(f).(hasIp := true, ipVersion := 4, ttl := f[22], protocol := f[23],
                  srcIp := U32At(f, 26), dstIp := U32At(f, 30), hasTcp := f[23] == TCP, hasUdp := f[23] == UDP)
  }

  function Finished(p: ParsedPacket, f: seq<byte>, k: nat): ParsedPacket
    requires k <= |f|
  {
    p.(payloadOffset := k, payloadLength := |f| - k)
  }

  function Parsed(f: seq<byte>): Option<ParsedPacket> {
    if |f| < 14 then None
    else if U16At(f, 12) != ETHERTYPE_IPV4 then Some(EthFields(f))
    else if !IpOk(f) then None
    else
      var k := 14 + IpLength(f);
      var p := IpFields(f);
      if f[23] == TCP then
        if !TcpOk(f, k) then None
        else Some(Finished(p.(srcPort := U16At(f, k), dstPort := U16At(f, k + 2), seqNum := U32At(f, k + 4),
                              ackNum := U32At(f, k + 8), tcpFlags := f[k + 13]), f, k + TcpLength(f, k)))
      else if f[23] == UDP then
        if k + 8 > |f| then None
        else Some(Finished(p.(srcPort := U16At(f, k), dstPort := U16At(f, k + 2)), f, k + 8))
      else Some(Finished(p, f, k))
  }

  // ----- the source's parser -----

  method ParseEthernet(data: seq<byte>, p: ParsedPacket, offset: nat) returns (ok: bool, q: ParsedPacket, next: nat)
    requires offset == 0 && p == BLANK
    ensures ok == (|data| >= 14)
    ensures ok ==> next == 14 && q == EthFields(data)
  {
    q, next := p, offset;
    if offset + 14 > |data| { return false, q, next; }
    next := next + 6;
    next := next + 6;
    q := q.(etherType := U16At(data, next));
    next := next + 2;
    q := q.(hasEth := true, hasIp := q.etherType == ETHERTYPE_IPV4);
    ok := true;
  }

  method ParseIPv4(data: seq<byte>, p: ParsedPacket, offset: nat) returns (ok: bool, q: ParsedPacket, next: nat)
    requires |data| >= 14 && offset == 14 && p == EthFields(data)
    ensures ok == IpOk(data)
    ensures ok ==> next == 14 + IpLength(data) && q == IpFields(data)
  {
    q, next := p, offset;
    if offset + 20 > |data| { return false, q, next; }
    q := q.(ipVersion := data[offset] / 16);
    if q.ipVersion != 4 { return false, q, next; }
    var ihl := data[offset] % 16 * 4;
    if ihl < 20 || offset + ihl > |data| { return false, q, next; }
    q := q.(ttl := data[offset + 8], protocol := data[offset + 9]);
    q := q.(srcIp := U32At(data, offset + 12), dstIp := U32At(data, offset + 16), hasIp := true);
    next := next + ihl;
    q := q.(hasTcp := q.protocol == TCP, hasUdp := q.protocol == UDP);
    ok := true;
  }

  method ParseTcp(data: seq<byte>, p: ParsedPacket, offset: nat) returns (ok: bool, q: ParsedPacket, next: nat)
    ensures ok == TcpOk(data, offset)
    ensures ok ==> next == offset + TcpLength(data, offset)
    ensures ok ==> q == p.(srcPort := U16At(data, offset), dstPort := U16At(data, offset + 2),
                           seqNum := U32At(data, offset + 4), ackNum := U32At(data, offset + 8),
                           tcpFlags := data[offset + 13])
  {
    q, next := p, offset;
    if offset + 20 > |data| { return false, q, next; }
    q := q.(srcPort := U16At(data, offset), dstPort := U16At(data, offset + 2));
    q := q.(seqNum := U32At(data, offset + 4), ackNum := U32At(data, offset + 8), tcpFlags := data[offset + 13]);
    var dataOffset := data[offset + 12] / 16 * 4;
    if dataOffset < 20 || offset + dataOffset > |data| { return false, q, next; }
    next := next + dataOffset;
    ok := true;
  }

  method ParseUdp(data: seq<byte>, p: ParsedPacket, offset: nat) returns (ok: bool, q: ParsedPacket, next: nat)
    ensures ok == (offset + 8 <= |data|)
    ensures ok ==> next == offset + 8 && q == p.(srcPort := U16At(data, offset), dstPort := U16At(data, offset + 2))
  {
    q, next := p, offset;
    if offset + 8 > |data| { return false, q, next; }
    q := q.(srcPort := U16At(data, offset), dstPort := U16At(data, offset + 2));
    next := next + 8;
    ok := true;
  }

  method Parse(data: seq<byte>) returns (ok: bool, p: ParsedPacket)
    ensures ok == Parsed(data).Some?
    ensures ok ==> p == Parsed(data).value
  {
    p := BLANK;
    if |data| < 14 { return false, p; }
    var offset := 0;
    ok, p, offset := ParseEthernet(data, p, offset);
    if !ok { return false, p; }
    if !p.hasIp { return true, p; }
    ok, p, offset := ParseIPv4(data, p, offset);
    if !ok { return false, p; }
    if p.hasTcp {
      ok, p, offset := ParseTcp(data, p, offset);
      if !ok { return false, p; }
    } else if p.hasUdp {
      ok, p, offset := ParseUdp(data, p, offset);
      if !ok { return false, p; }
    }
    p := p.(payloadOffset := offset);
    if offset < |data| {
      p := p.(payloadLength := |data| - offset);
    }
    return true, p;
  }

  /** The reader keeps TCP and UDP frames over IPv4 only. */
  predicate Kept(f: seq<byte>) {
    Parsed(f).Some? && var p := Parsed(f).value; p.hasIp && (p.hasTcp || p.hasUdp)
  }

  function MakeTuple(p: ParsedPacket): FiveTuple {
    FiveTuple(p.srcIp, p.dstIp, p.srcPort, p.dstPort, p.protocol)
  }
}
