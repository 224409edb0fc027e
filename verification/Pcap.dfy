/** src/pcap_reader.cpp: capture files as byte sequences on a little-endian host. */
module Pcap {
  import opened Prelude
  import opened Sequences

  const GLOBAL_HEADER: nat := 24
  const RECORD_HEADER: nat := 16
  const MAX_PACKET: nat := 65536
  const NATIVE_MAGIC: u32 := 0xa1b2c3d4
  const SWAPPED_MAGIC: u32 := 0xd4c3b2a1

  datatype Packet = Packet(tsSec: u32, tsUsec: u32, data: seq<byte>)

  /** The four bytes at `k` as the host reads them. */
  function Le32At(f: seq<byte>, k: nat): u32
    requires k + 4 <= |f|
  {
    f[k] as int + f[k + 1] as int * 0x100 + f[k + 2] as int * 0x1_0000 + f[k + 3] as int * 0x100_0000
  }

  function PutLe32(n: u32): (b: seq<byte>)
    ensures |b| == 4
  {
    [n % 0x100, n / 0x100 % 0x100, n / 0x100 / 0x100 % 0x100, n / 0x100 / 0x100 / 0x100]
  }

  /** swapBytes32 of include/platform.h. */
  function SwapBytes32(v: u32): u32 {
    v % 0x100 * 0x100_0000
    + v / 0x100 % 0x100 * 0x1_0000
    + v / 0x100 / 0x100 % 0x100 * 0x100
    + v / 0x100 / 0x100 / 0x100
  }

  function MaybeSwap32(v: u32, swap: bool): u32 {
    if swap then SwapBytes32(v) else v
  }

  /** Reading little-endian and swapping is reading big-endian. */
  lemma SwapReadsBigEndian(f: seq<byte>, k: nat)
    requires k + 4 <= |f|
    ensures SwapBytes32(Le32At(f, k)) == U32At(f, k)
  {
    var r2: int := f[k + 2] as int + 0x100 * f[k + 3] as int;
    var r1: int := f[k + 1] as int + 0x100 * r2;
    LowByte(f[k], r1);
    LowByte(f[k + 1], r2);
    LowByte(f[k + 2], f[k + 3]);
    assert Le32At(f, k) == f[k] as int + 0x100 * r1;
  }

  lemma LowByte(b: byte, r: int)
    requires 0 <= r
    ensures (b + 0x100 * r) % 0x100 == b && (b + 0x100 * r) / 0x100 == r
  {
  }

  // ----- the records of a file -----

  /** Length of the packet whose record header is at `k`. */
  function InclLen(f: seq<byte>, k: nat, swap: bool): u32
    requires k + RECORD_HEADER <= |f|
  {
    MaybeSwap32(Le32At(f, k + 8), swap)
  }

  /** A whole record with a sane length starts at `k`. */
  predicate RecordAt(f: seq<byte>, k: nat, swap: bool) {
    && k + RECORD_HEADER <= |f|
    && 1 <= InclLen(f, k, swap) <= MAX_PACKET
    && k + RECORD_HEADER + InclLen(f, k, swap) <= |f|
  }

  function PacketAt(f: seq<byte>, k: nat, swap: bool): Packet
    requires RecordAt(f, k, swap)
  {
    var data := k + RECORD_HEADER;
    Packet(MaybeSwap32(Le32At(f, k), swap), MaybeSwap32(Le32At(f, k + 4), swap), f[data..data + InclLen(f, k, swap)])
  }

  function Records(f: seq<byte>, k: nat, swap: bool): seq<Packet>
    decreases |f| - k
  {
    if RecordAt(f, k, swap) then
      [PacketAt(f, k, swap)] + Records(f, k + RECORD_HEADER + InclLen(f, k, swap), swap)
    else []
  }

  class PcapReader {
    var file: seq<byte>
    var pos: nat
    var globalHeader: seq<byte>
    var needsByteSwap: bool
    var done: bool

    predicate Valid()
      reads this
    {
      pos <= |file|
    }

    /** What readNextPacket has still to deliver. */
    function Remaining(): seq<Packet>
      reads this
    {
      Records(file, pos, needsByteSwap)
    }

    constructor ()
      ensures Valid()
    {
      file, pos, globalHeader, needsByteSwap, done := [], 0, [], false, false;
    }

    method Open(contents: seq<byte>) returns (ok: bool)
      modifies this
      ensures Valid()
      ensures ok == (|contents| >= GLOBAL_HEADER && Le32At(contents, 0) in {NATIVE_MAGIC, SWAPPED_MAGIC})
      ensures ok ==> globalHeader == contents[..GLOBAL_HEADER] && !done
                     && Remaining() == Records(contents, GLOBAL_HEADER, Le32At(contents, 0) == SWAPPED_MAGIC)
    {
      file, pos := contents, 0;
      if |file| < GLOBAL_HEADER { return false; }
      globalHeader, pos := file[..GLOBAL_HEADER], GLOBAL_HEADER;
      var magic := Le32At(file, 0);
      if magic == NATIVE_MAGIC {
        needsByteSwap := false;
      } else if magic == SWAPPED_MAGIC {
        needsByteSwap := true;
      } else {
        return false;
      }
      done := false;
      return true;
    }

    method ReadNextPacket() returns (ok: bool, packet: Packet)
      requires Valid()
      modifies this`pos, this`done
      ensures Valid()
      ensures ok == (old(Remaining()) != [])
      ensures ok ==> packet == old(Remaining())[0] && Remaining() == old(Remaining())[1..] && pos > old(pos)
      ensures !ok ==> done
    {
      packet := Packet(0, 0, []);
      if pos + RECORD_HEADER > |file| {
        pos, done := |file|, true;
        return false, packet;
      }
      var start := pos;
      pos := pos + RECORD_HEADER;
      var length := MaybeSwap32(Le32At(file, start + 8), needsByteSwap);
      packet := Packet(MaybeSwap32(Le32At(file, start), needsByteSwap),
                       MaybeSwap32(Le32At(file, start + 4), needsByteSwap), []);
      if length == 0 || length > MAX_PACKET {
        done := true;
        return false, packet;
      }
      if pos + length > |file| {
        pos, done := |file|, true;
        return false, packet;
      }
      packet := packet.(data := file[pos..pos + length]);
      pos := pos + length;
      return true, packet;
    }
  }

  // ----- writing -----

  /** One record: the native header, with both lengths the data's, and the data. */
  function Record(p: Packet): (b: seq<byte>)
    requires |p.data| < 0x1_0000_0000
    ensures |b| == RECORD_HEADER + |p.data|
  {
    PutLe32(p.tsSec) + PutLe32(p.tsUsec) + PutLe32(|p.data|) + PutLe32(|p.data|) + p.data
  }

  predicate Writable(packets: seq<Packet>) {
    forall i :: 0 <= i < |packets| ==> 1 <= |packets[i].data| <= MAX_PACKET
  }

  function Wire(packets: seq<Packet>): seq<byte>
    requires Writable(packets)
  {
    if packets == [] then [] else Record(packets[0]) + Wire(packets[1..])
  }

  lemma {:induction false} WireSnoc(packets: seq<Packet>, p: Packet)
    requires Writable(packets) && 1 <= |p.data| <= MAX_PACKET
    ensures Wire(packets + [p]) == Wire(packets) + Record(p)
  {
    if packets == [] {
      assert [p][1..] == [];
      assert Record(p) + [] == Record(p);
    } else {
      assert (packets + [p])[1..] == packets[1..] + [p];
      WireSnoc(packets[1..], p);
      Assoc(Record(packets[0]), Wire(packets[1..]), Record(p));
    }
  }

  class PcapWriter {
    var file: seq<byte>

    constructor ()
      ensures file == []
    {
      file := [];
    }

    /** The source file's header is copied byte for byte. */
    method Open(globalHeader: seq<byte>)
      modifies this
      ensures file == globalHeader
    {
      file := globalHeader;
    }

    method WritePacket(tsSec: u32, tsUsec: u32, data: seq<byte>)
      requires |data| < 0x1_0000_0000
      modifies this
      ensures file == old(file) + Record(Packet(tsSec, tsUsec, data))
    {
      var length := |data|;
      file := file + (PutLe32(tsSec) + PutLe32(tsUsec) + PutLe32(length) + PutLe32(length) + data);
    }
  }

  /** The writer's whole output for a list of packets. */
  method WriteAll(globalHeader: seq<byte>, packets: seq<Packet>) returns (file: seq<byte>)
    requires Writable(packets)
    ensures file == globalHeader + Wire(packets)
  {
    var writer := new PcapWriter();
    writer.Open(globalHeader);
    for i := 0 to |packets|
      invariant writer.file == globalHeader + Wire(packets[..i])
    {
      WireSnoc(packets[..i], packets[i]);
      assert packets[..i + 1] == packets[..i] + [packets[i]];
      Assoc(globalHeader, Wire(packets[..i]), Record(packets[i]));
      writer.WritePacket(packets[i].tsSec, packets[i].tsUsec, packets[i].data);
    }
    assert packets[..|packets|] == packets;
    file := writer.file;
  }

  // ----- reading back -----

  lemma Le32OfPut(f: seq<byte>, k: nat, n: u32)
    requires k + 4 <= |f| && f[k..k + 4] == PutLe32(n)
    ensures Le32At(f, k) == n
  {
    var b := PutLe32(n);
    assert f[k] == f[k..k + 4][0] && f[k + 1] == f[k..k + 4][1] && f[k + 2] == f[k..k + 4][2]
           && f[k + 3] == f[k..k + 4][3];
  }

  lemma RecordRead(f: seq<byte>, k: nat, p: Packet, rest: seq<byte>)
    requires k <= |f| && 1 <= |p.data| <= MAX_PACKET && f[k..] == Record(p) + rest
    ensures RecordAt(f, k, false) && PacketAt(f, k, false) == p
    ensures InclLen(f, k, false) == |p.data| && f[k + RECORD_HEADER + |p.data|..] == rest
    ensures f[k + 8..k + 12] == PutLe32(|p.data|)
  {
    var a, b, c := PutLe32(p.tsSec), PutLe32(p.tsUsec), PutLe32(|p.data|);
    FiveParts(a, b, c, c, p.data, rest);
    Advance(f, k, a, b + (c + (c + (p.data + rest))));
    Advance(f, k + 4, b, c + (c + (p.data + rest)));
    Advance(f, k + 8, c, c + (p.data + rest));
    Advance(f, k + 12, c, p.data + rest);
    Advance(f, k + 16, p.data, rest);
    Le32OfPut(f, k, p.tsSec);
    Le32OfPut(f, k + 4, p.tsUsec);
    Le32OfPut(f, k + 8, |p.data|);
  }

  /** From `k` on, `f` holds `packets` and then `rest`, which does not start with a record. */
  ghost predicate Holds(f: seq<byte>, k: nat, packets: seq<Packet>, rest: seq<byte>) {
    && Writable(packets)
    && k <= |f| && f[k..] == Wire(packets) + rest
    && !RecordAt(f, |f| - |rest|, false)
  }

  lemma HoldsNothing(f: seq<byte>, k: nat, rest: seq<byte>)
    requires Holds(f, k, [], rest)
    ensures !RecordAt(f, k, false)
  {
    assert |f[k..]| == |rest|;
  }

  lemma WireFirst(f: seq<byte>, k: nat, packets: seq<Packet>, rest: seq<byte>)
    requires Holds(f, k, packets, rest) && packets != []
    ensures Writable(packets[1..]) && f[k..] == Record(packets[0]) + (Wire(packets[1..]) + rest)
  {
    Assoc(Record(packets[0]), Wire(packets[1..]), rest);
  }

  /** Exactly these packets, one record after the other, and then no record. */
  predicate Chain(f: seq<byte>, k: nat, packets: seq<Packet>)
    decreases |packets|
  {
    if packets == [] then !RecordAt(f, k, false)
    else
      && RecordAt(f, k, false) && PacketAt(f, k, false) == packets[0]
      && Chain(f, k + RECORD_HEADER + |packets[0].data|, packets[1..])
  }

  lemma ChainStep(f: seq<byte>, k: nat, packets: seq<Packet>, rest: seq<byte>)
    requires Holds(f, k, packets, rest) && packets != []
    requires Chain(f, k + RECORD_HEADER + |packets[0].data|, packets[1..])
    ensures Chain(f, k, packets)
  {
    WireFirst(f, k, packets, rest);
    RecordRead(f, k, packets[0], Wire(packets[1..]) + rest);
  }

  lemma RestHeld(f: seq<byte>, k: nat, packets: seq<Packet>, rest: seq<byte>) returns (next: nat, others: seq<Packet>)
    requires Holds(f, k, packets, rest) && packets != []
    ensures others == packets[1..] && next == k + RECORD_HEADER + |packets[0].data|
    ensures Holds(f, next, others, rest)
  {
    others, next := packets[1..], k + RECORD_HEADER + |packets[0].data|;
    WireFirst(f, k, packets, rest);
    Advance(f, k, Record(packets[0]), Wire(others) + rest);
  }

  lemma {:induction false} WireChain(f: seq<byte>, k: nat, packets: seq<Packet>, rest: seq<byte>)
    requires Holds(f, k, packets, rest)
    ensures Chain(f, k, packets)
    decreases |packets|
  {
    if packets == [] {
      HoldsNothing(f, k, rest);
    } else {
      var next, others := RestHeld(f, k, packets, rest);
      WireChain(f, next, others, rest);
      ChainStep(f, k, packets, rest);
    }
  }

  lemma {:induction false} ChainRead(f: seq<byte>, k: nat, packets: seq<Packet>)
    requires Chain(f, k, packets)
    ensures Records(f, k, false) == packets
    decreases |packets|
  {
    if packets != [] {
      ChainRead(f, k + RECORD_HEADER + |packets[0].data|, packets[1..]);
      assert InclLen(f, k, false) == |packets[0].data|;
    }
  }

  lemma WireRead(f: seq<byte>, k: nat, packets: seq<Packet>, rest: seq<byte>)
    requires Holds(f, k, packets, rest)
    ensures Records(f, k, false) == packets
  {
    WireChain(f, k, packets, rest);
    ChainRead(f, k, packets);
  }

  predicate NativeHeader(globalHeader: seq<byte>) {
    |globalHeader| == GLOBAL_HEADER && Le32At(globalHeader, 0) == NATIVE_MAGIC
  }

  /** Round trip: with a native header, reading back what was written gives the same packets. */
  lemma PcapRoundTrip(globalHeader: seq<byte>, packets: seq<Packet>)
    requires NativeHeader(globalHeader) && Writable(packets)
    ensures var f := globalHeader + Wire(packets);
            Le32At(f, 0) == NATIVE_MAGIC && Records(f, GLOBAL_HEADER, false) == packets
  {
    var f := globalHeader + Wire(packets);
    assert f[GLOBAL_HEADER..] == Wire(packets) + [];
    WireRead(f, GLOBAL_HEADER, packets, []);
  }

  lemma ConsPrefix<T>(x: T, a: seq<T>, b: seq<T>)
    requires a <= b
    ensures [x] + a <= [x] + b
  {
  }

  /** A record that survives the cut is the record that was there. */
  lemma SameRecord(f: seq<byte>, n: nat, k: nat, swap: bool)
    requires n <= |f| && RecordAt(f[..n], k, swap)
    ensures RecordAt(f, k, swap) && PacketAt(f[..n], k, swap) == PacketAt(f, k, swap)
    ensures InclLen(f[..n], k, swap) == InclLen(f, k, swap) && k + RECORD_HEADER + InclLen(f, k, swap) <= n
  {
  }

  lemma FirstRecord(f: seq<byte>, k: nat, swap: bool, next: nat, p: Packet)
    requires RecordAt(f, k, swap) && PacketAt(f, k, swap) == p && next == k + RECORD_HEADER + InclLen(f, k, swap)
    ensures Records(f, k, swap) == [p] + Records(f, next, swap)
  {
  }

  lemma AfterRecord(f: seq<byte>, n: nat, k: nat, swap: bool) returns (next: nat, p: Packet)
    requires n <= |f| && RecordAt(f[..n], k, swap)
    ensures k < next <= n
    ensures Records(f[..n], k, swap) == [p] + Records(f[..n], next, swap)
    ensures Records(f, k, swap) == [p] + Records(f, next, swap)
  {
    SameRecord(f, n, k, swap);
    next, p := k + RECORD_HEADER + InclLen(f, k, swap), PacketAt(f, k, swap);
    FirstRecord(f, k, swap, next, p);
    FirstRecord(f[..n], k, swap, next, p);
  }

  /** Truncating any file never changes the packets read before the cut. */
  lemma {:induction false} TruncationPrefix(f: seq<byte>, n: nat, k: nat, swap: bool)
    requires k <= n <= |f|
    ensures Records(f[..n], k, swap) <= Records(f, k, swap)
    decreases n - k
  {
    if RecordAt(f[..n], k, swap) {
      var next, p := AfterRecord(f, n, k, swap);
      TruncationPrefix(f, n, next, swap);
      ConsPrefix(p, Records(f[..n], next, swap), Records(f, next, swap));
    }
  }

  /** A written file cut inside record `m` reads back as exactly the first `m` packets. */
  lemma TruncatedRoundTrip(globalHeader: seq<byte>, packets: seq<Packet>, m: nat, cut: nat)
    requires NativeHeader(globalHeader) && Writable(packets) && m < |packets| && cut < |Record(packets[m])|
    ensures var f := globalHeader + Wire(packets[..m]) + Record(packets[m])[..cut];
            && f <= globalHeader + Wire(packets)
            && Records(f, GLOBAL_HEADER, false) == packets[..m]
  {
    var part := Record(packets[m])[..cut];
    var f := globalHeader + Wire(packets[..m]) + part;
    CutIsPrefix(globalHeader, packets, m, cut);
    Regrouped(globalHeader, Wire(packets[..m]), part);
    CutHolds(f, GLOBAL_HEADER, packets[..m], packets[m], part);
    WireRead(f, GLOBAL_HEADER, packets[..m], part);
  }

  lemma Regrouped<T>(a: seq<T>, b: seq<T>, c: seq<T>)
    ensures (a + b + c)[|a|..] == b + c
  {
  }

  lemma LastPart<T>(f: seq<T>, k: nat, a: seq<T>, part: seq<T>)
    requires k <= |f| && f[k..] == a + part
    ensures f[|f| - |part|..] == part
  {
    assert f[|f| - |part|..] == f[k..][|a|..];
  }

  lemma CutHolds(f: seq<byte>, k: nat, packets: seq<Packet>, p: Packet, part: seq<byte>)
    requires Writable(packets) && 1 <= |p.data| <= MAX_PACKET && part < Record(p)
    requires k <= |f| && f[k..] == Wire(packets) + part
    ensures Holds(f, k, packets, part)
  {
    LastPart(f, k, Wire(packets), part);
    CutRecord(f, |f| - |part|, p, part);
  }

  lemma CutIsPrefix(header: seq<byte>, packets: seq<Packet>, m: nat, cut: nat)
    requires Writable(packets) && m < |packets| && cut < |Record(packets[m])|
    ensures header + Wire(packets[..m]) + Record(packets[m])[..cut] <= header + Wire(packets)
  {
    var record, after := Record(packets[m]), Wire(packets[m + 1..]);
    WireSplit(packets, m);
    CutInside(header, Wire(packets[..m]), record, cut, after);
  }

  lemma CutInside<T>(a: seq<T>, b: seq<T>, c: seq<T>, cut: nat, d: seq<T>)
    requires cut <= |c|
    ensures a + b + c[..cut] <= a + (b + (c + d))
  {
    assert a + (b + (c + d)) == a + b + c[..cut] + (c[cut..] + d);
  }

  lemma {:induction false} WireSplit(packets: seq<Packet>, m: nat)
    requires Writable(packets) && m < |packets|
    ensures Wire(packets) == Wire(packets[..m]) + (Record(packets[m]) + Wire(packets[m + 1..]))
  {
    if m > 0 {
      WireSplit(packets[1..], m - 1);
      assert packets[..m][1..] == packets[1..][..m - 1];
      assert packets[1..][m..] == packets[m + 1..];
      Assoc(Record(packets[0]), Wire(packets[..m][1..]), Record(packets[m]) + Wire(packets[m + 1..]));
    }
  }

  lemma CutRecord(f: seq<byte>, k: nat, p: Packet, part: seq<byte>)
    requires 1 <= |p.data| <= MAX_PACKET && k <= |f| && f[k..] == part < Record(p)
    ensures !RecordAt(f, k, false)
  {
    if k + RECORD_HEADER <= |f| {
      assert f[k + 8..k + 12] == f[k..][8..12] == Record(p)[8..12];
      assert Record(p)[8..12] == PutLe32(|p.data|);
      Le32OfPut(f, k + 8, |p.data|);
    }
  }

  /** No sane length is its own byte swap. */
  lemma NoPalindromeLength(n: u32)
    requires 1 <= n <= MAX_PACKET
    ensures SwapBytes32(n) != n
  {
    var b0, b1, b2 := n % 0x100, n / 0x100 % 0x100, n / 0x100 / 0x100;
    assert n == b0 + b1 * 0x100 + b2 * 0x1_0000;
    assert b2 <= 1;
  }

  /**
   With a byte-swapped header the round trip fails: the writer copies the header and writes
   native records, which a reader then swaps. It holds exactly when nothing was written.
   */
  lemma SwappedRoundTrip(globalHeader: seq<byte>, packets: seq<Packet>)
    requires |globalHeader| == GLOBAL_HEADER && Le32At(globalHeader, 0) == SWAPPED_MAGIC && Writable(packets)
    ensures var f := globalHeader + Wire(packets);
            && Le32At(f, 0) == SWAPPED_MAGIC
            && (Records(f, GLOBAL_HEADER, true) == packets <==> packets == [])
  {
    var f := globalHeader + Wire(packets);
    if packets != [] {
      var p := packets[0];
      assert f[GLOBAL_HEADER..] == Record(p) + Wire(packets[1..]);
      RecordRead(f, GLOBAL_HEADER, p, Wire(packets[1..]));
      NoPalindromeLength(|p.data|);
      assert InclLen(f, GLOBAL_HEADER, true) == SwapBytes32(|p.data|);
      if RecordAt(f, GLOBAL_HEADER, true) {
        assert |PacketAt(f, GLOBAL_HEADER, true).data| == SwapBytes32(|p.data|);
      }
    }
  }

  // ----- the format, without the reader -----

  /** A number of the file: in the byte order its magic shows. */
  function Number(f: seq<byte>, k: nat, swapped: bool): u32
    requires k + 4 <= |f|
  {
    if swapped then U32At(f, k)
    else f[k] as int + 256 * (f[k + 1] as int + 256 * (f[k + 2] as int + 256 * f[k + 3] as int))
  }

  lemma NumberRead(f: seq<byte>, k: nat, swapped: bool)
    requires k + 4 <= |f|
    ensures MaybeSwap32(Le32At(f, k), swapped) == Number(f, k, swapped)
  {
    SwapReadsBigEndian(f, k);
  }

  /** The two magics are the same number in the two byte orders. */
  lemma MagicsAre(f: seq<byte>)
    requires |f| >= 4
    ensures Le32At(f, 0) == NATIVE_MAGIC <==> f[..4] == [0xd4, 0xc3, 0xb2, 0xa1]
    ensures Le32At(f, 0) == SWAPPED_MAGIC <==> f[..4] == [0xa1, 0xb2, 0xc3, 0xd4]
  {
    PutOfLe32(f, 0);
    if f[..4] == [0xd4, 0xc3, 0xb2, 0xa1] || f[..4] == [0xa1, 0xb2, 0xc3, 0xd4] {
      assert f[0] == f[..4][0] && f[1] == f[..4][1] && f[2] == f[..4][2] && f[3] == f[..4][3];
    }
  }

  /**
   What is read at `k`: nothing if fewer than 16 bytes are left, the length there is 0 or above 65536
   or runs past the end; else that packet, and after it what is read from its end on.
   */
  lemma RecordsExactly(f: seq<byte>, k: nat, swapped: bool)
    ensures if |f| < k + 16 then Records(f, k, swapped) == []
            else
              var n := Number(f, k + 8, swapped);
              if n == 0 || n > 65536 || |f| < k + 16 + n then Records(f, k, swapped) == []
              else
                Records(f, k, swapped)
                == [Packet(Number(f, k, swapped), Number(f, k + 4, swapped), f[k + 16..k + 16 + n])]
                   + Records(f, k + 16 + n, swapped)
  {
    if |f| >= k + 16 {
      NumberRead(f, k, swapped);
      NumberRead(f, k + 4, swapped);
      NumberRead(f, k + 8, swapped);
    }
  }

  // ----- copying a capture -----

  /** Where the last whole record ends. */
  function EndOf(f: seq<byte>, k: nat): (end: nat)
    requires k <= |f|
    ensures k <= end <= |f|
    decreases |f| - k
  {
    if RecordAt(f, k, false) then EndOf(f, k + RECORD_HEADER + InclLen(f, k, false)) else k
  }

  /** No packet was longer than what the capture kept of it. */
  predicate KeptWhole(f: seq<byte>, k: nat)
    decreases |f| - k
  {
    RecordAt(f, k, false) ==>
      Number(f, k + 12, false) == Number(f, k + 8, false)
      && KeptWhole(f, k + RECORD_HEADER + InclLen(f, k, false))
  }

  lemma PutOfLe32(f: seq<byte>, k: nat)
    requires k + 4 <= |f|
    ensures PutLe32(Le32At(f, k)) == f[k..k + 4]
  {
    var r2: int := f[k + 2] as int + 0x100 * f[k + 3] as int;
    var r1: int := f[k + 1] as int + 0x100 * r2;
    LowByte(f[k], r1);
    LowByte(f[k + 1], r2);
    LowByte(f[k + 2], f[k + 3]);
    assert Le32At(f, k) == f[k] as int + 0x100 * r1;
  }

  lemma SameNumber(f: seq<byte>, i: nat, j: nat)
    requires i + 4 <= |f| && j + 4 <= |f|
    ensures f[i..i + 4] == f[j..j + 4] <==> Le32At(f, i) == Le32At(f, j)
  {
    PutOfLe32(f, i);
    PutOfLe32(f, j);
    if f[i..i + 4] == f[j..j + 4] {
      Le32OfPut(f, i, Le32At(f, j));
    }
  }

  /** A record written again is the record, its original length aside. */
  lemma RecordAgain(f: seq<byte>, k: nat, p: Packet, n: nat)
    requires RecordAt(f, k, false) && PacketAt(f, k, false) == p && n == |p.data|
    ensures Record(p) == f[k..k + 16 + n] <==> Le32At(f, k + 12) == Le32At(f, k + 8)
  {
    PutOfLe32(f, k);
    PutOfLe32(f, k + 4);
    PutOfLe32(f, k + 8);
    SameNumber(f, k + 8, k + 12);
    var kept := f[k..k + 4] + f[k + 4..k + 8] + f[k + 8..k + 12];
    assert Record(p) == kept + f[k + 8..k + 12] + p.data;
    assert f[k..k + 16 + n] == kept + f[k + 12..k + 16] + p.data;
    MiddleDecides(kept, f[k + 8..k + 12], f[k + 12..k + 16], p.data);
  }

  lemma MiddleDecides<T>(a: seq<T>, b: seq<T>, c: seq<T>, d: seq<T>)
    requires |b| == |c|
    ensures a + b + d == a + c + d <==> b == c
  {
    if a + b + d == a + c + d {
      assert (a + b + d)[|a|..|a| + |b|] == b;
      assert (a + c + d)[|a|..|a| + |c|] == c;
    }
  }

  lemma BothDecide<T>(a: seq<T>, b: seq<T>, c: seq<T>, d: seq<T>)
    requires |a| == |c|
    ensures a + b == c + d <==> a == c && b == d
  {
    if a + b == c + d {
      assert (a + b)[..|a|] == a && (c + d)[..|c|] == c;
      assert (a + b)[|a|..] == b && (c + d)[|c|..] == d;
    }
  }

  lemma {:induction false} CopyFrom(f: seq<byte>, k: nat)
    requires k <= |f|
    ensures Writable(Records(f, k, false))
    ensures Wire(Records(f, k, false)) == f[k..EndOf(f, k)] <==> KeptWhole(f, k)
    decreases |f| - k
  {
    if RecordAt(f, k, false) {
      var p, next := PacketAt(f, k, false), k + RECORD_HEADER + InclLen(f, k, false);
      CopyFrom(f, next);
      CopyOne(f, k, p, next, Records(f, next, false));
    }
  }

  lemma WholeStep(f: seq<byte>, k: nat, next: nat)
    requires RecordAt(f, k, false) && next == k + RECORD_HEADER + InclLen(f, k, false)
    ensures EndOf(f, k) == EndOf(f, next)
    ensures KeptWhole(f, k) <==> Le32At(f, k + 12) == Le32At(f, k + 8) && KeptWhole(f, next)
  {
    NumberRead(f, k + 8, false);
    NumberRead(f, k + 12, false);
  }

  lemma CopyOne(f: seq<byte>, k: nat, p: Packet, next: nat, more: seq<Packet>)
    requires RecordAt(f, k, false) && PacketAt(f, k, false) == p && next == k + RECORD_HEADER + InclLen(f, k, false)
    requires more == Records(f, next, false) && Writable(more)
    requires Wire(more) == f[next..EndOf(f, next)] <==> KeptWhole(f, next)
    ensures Writable(Records(f, k, false))
    ensures Wire(Records(f, k, false)) == f[k..EndOf(f, k)] <==> KeptWhole(f, k)
  {
    var end, record, rest := EndOf(f, next), Record(p), Wire(more);
    FirstRecord(f, k, false, next, p);
    WireCons(p, more);
    RecordAgain(f, k, p, |p.data|);
    Spliced(f, k, next, end);
    BothDecide(record, rest, f[k..next], f[next..end]);
    WholeStep(f, k, next);
  }

  lemma Spliced<T>(f: seq<T>, i: nat, j: nat, k: nat)
    requires i <= j <= k <= |f|
    ensures f[i..k] == f[i..j] + f[j..k]
  {
  }

  lemma WireCons(p: Packet, more: seq<Packet>)
    requires Writable(more) && 1 <= |p.data| <= MAX_PACKET
    ensures Writable([p] + more) && Wire([p] + more) == Record(p) + Wire(more)
  {
    assert ([p] + more)[1..] == more;
  }

  /**
   Forwarding everything copies a native capture byte for byte, up to what follows its last whole
   record, exactly when no packet had been cut short in it.
   */
  lemma CopyExactly(f: seq<byte>)
    requires |f| >= GLOBAL_HEADER && Le32At(f, 0) == NATIVE_MAGIC
    ensures var packets := Records(f, GLOBAL_HEADER, false);
            && Writable(packets)
            && (f[..GLOBAL_HEADER] + Wire(packets) == f[..EndOf(f, GLOBAL_HEADER)] <==> KeptWhole(f, GLOBAL_HEADER))
  {
    var end := EndOf(f, GLOBAL_HEADER);
    CopyFrom(f, GLOBAL_HEADER);
    assert f[..end] == f[..GLOBAL_HEADER] + f[GLOBAL_HEADER..end];
    BothDecide(f[..GLOBAL_HEADER], Wire(Records(f, GLOBAL_HEADER, false)), f[..GLOBAL_HEADER], f[GLOBAL_HEADER..end]);
  }
}
