/** Building a ClientHello and extracting its server name again. */
module TlsRoundTrip {
  import opened Prelude
  import opened Sequences
  import opened Tls
  import opened TlsGrammar

  datatype ClientHello = ClientHello(
    recordVersion: u16,
    version: u16,
    random: seq<byte>,
    sessionId: seq<byte>,
    ciphers: seq<u16>,
    compression: seq<byte>,
    extensions: seq<Extension>)
  {
    /** Every field fits the length field in front of it, and the whole fits one record. */
    predicate Valid() {
      && 0x0300 <= recordVersion <= 0x0304
      && |random| == 32
      && |sessionId| < 0x100
      && 2 * |ciphers| < 0x1_0000
      && |compression| < 0x100
      && Fits(extensions)
      && |EncodeAll(extensions)| < 0x1_0000
      && 4 + BodyLength() < 0x1_0000
    }

    function BodyLength(): nat
      requires Fits(extensions)
    {
      2 + 32 + 1 + |sessionId| + 2 + 2 * |ciphers| + 1 + |compression| + 2 + |EncodeAll(extensions)|
    }

    function Body(): (b: seq<byte>)
      requires Valid()
    {
      PutU16(version) + random
      + Short(sessionId) + Long(PutAll(ciphers)) + Short(compression)
      + PutU16(|EncodeAll(extensions)|) + EncodeAll(extensions)
    }

    /** The record around the handshake message around the hello. */
    function Encode(): seq<byte>
      requires Valid()
    {
      var handshake := [HANDSHAKE_CLIENT_HELLO] + PutU24(BodyLength()) + Body();
      [CONTENT_TYPE_HANDSHAKE] + PutU16(recordVersion) + PutU16(4 + BodyLength()) + handshake
    }
  }

  function PutU24(n: nat): (b: seq<byte>)
    requires n < 0x1_0000
    ensures |b| == 3
  {
    [0] + PutU16(n)
  }

  function PutAll(numbers: seq<u16>): (b: seq<byte>)
    ensures |b| == 2 * |numbers|
  {
    if numbers == [] then [] else PutU16(numbers[0]) + PutAll(numbers[1..])
  }

  lemma {:induction false} EncodeConcat(a: seq<Extension>, b: seq<Extension>)
    requires Fits(a) && Fits(b)
    ensures Fits(a + b) && EncodeAll(a + b) == EncodeAll(a) + EncodeAll(b)
  {
    if a == [] {
      assert a + b == b;
    } else {
      assert (a + b)[1..] == a[1..] + b;
      EncodeConcat(a[1..], b);
      Assoc(EncodeExtension(a[0]), EncodeAll(a[1..]), EncodeAll(b));
    }
  }

  function PrefixOf(h: ClientHello): (x: Prefix)
    requires h.Valid()
    ensures x.Valid()
  {
    Prefix(h.recordVersion, 4 + h.BodyLength(), PutU24(h.BodyLength()), PutU16(h.version), h.random,
           h.sessionId, PutAll(h.ciphers), h.compression, |EncodeAll(h.extensions)|)
  }

  lemma Regroup<T>(t: seq<T>, v: seq<T>, l: seq<T>, y: seq<T>, u: seq<T>, w: seq<T>, r: seq<T>,
                   s: seq<T>, c: seq<T>, m: seq<T>, n: seq<T>, e: seq<T>)
    ensures t + v + l + (y + u + (w + r + s + c + m + n + e))
         == (t + v + l + y + u + w + r) + s + c + m + n + e
  {
  }

  lemma EncodeIsPrefix(h: ClientHello)
    requires h.Valid()
    ensures h.Encode() == PrefixOf(h).Encode() + EncodeAll(h.extensions)
  {
    Regroup([CONTENT_TYPE_HANDSHAKE], PutU16(h.recordVersion), PutU16(4 + h.BodyLength()),
            [HANDSHAKE_CLIENT_HELLO], PutU24(h.BodyLength()),
            PutU16(h.version), h.random,
            Short(h.sessionId), Long(PutAll(h.ciphers)), Short(h.compression),
            PutU16(|EncodeAll(h.extensions)|), EncodeAll(h.extensions));
  }

  lemma EncodeLength(h: ClientHello)
    requires h.Valid()
    ensures |h.Encode()| == 9 + h.BodyLength()
  {
  }

  /**
   Round trip: for every hello within its field bounds whose first server_name extension leads
   with `host`, and any trailing bytes, the extractor returns `host`.
   */
  lemma ClientHelloRoundTrip(h: ClientHello, before: seq<Extension>, after: seq<Extension>,
                             listLength: u16, host: seq<byte>, more: seq<byte>, trailing: seq<byte>)
    requires h.Valid() && 3 <= listLength && 5 + |host| + |more| < 0x1_0000
    requires h.extensions == before + [Extension(EXTENSION_SNI, SniBody(listLength, host, more))] + after
    requires forall e :: e in before ==> e.kind != EXTENSION_SNI
    ensures Sni(h.Encode() + trailing) == Some(Text(host))
  {
    var sni := Extension(EXTENSION_SNI, SniBody(listLength, host, more));
    assert forall e :: e in before || e in after || e == sni ==> e in h.extensions;
    EncodeConcat(before + [sni], after);
    EncodeConcat(before, [sni]);
    assert EncodeAll([sni]) == EncodeExtension(sni) by { assert EncodeExtension(sni) + [] == EncodeExtension(sni); }
    var r := Reading(PrefixOf(h), before, listLength, host, more, EncodeAll(after) + trailing);
    var exts := r.Extensions();
    assert EncodeAll(h.extensions) == exts + EncodeAll(after);
    EncodeIsPrefix(h);
    EncodeLength(h);
    Assoc(PrefixOf(h).Encode(), exts, EncodeAll(after));
    Assoc(PrefixOf(h).Encode() + exts, EncodeAll(after), trailing);
    assert r.Describes(h.Encode() + trailing);
    ReadingExtracts(h.Encode() + trailing, r);
  }

  /** The first server_name extension of the hello leads with this host name. */
  ghost predicate LeadsWith(h: ClientHello, host: seq<byte>) {
    h.Valid() && exists before, listLength, more, after :: LeadsIn(h, before, listLength, host, more, after)
  }

  predicate LeadsIn(h: ClientHello, before: seq<Extension>, listLength: u16, host: seq<byte>,
                    more: seq<byte>, after: seq<Extension>) {
    && 3 <= listLength && 5 + |host| + |more| < 0x1_0000
    && h.extensions == before + [Extension(EXTENSION_SNI, SniBody(listLength, host, more))] + after
    && forall e :: e in before ==> e.kind != EXTENSION_SNI
  }

  lemma HelloNames(h: ClientHello, host: seq<byte>, trailing: seq<byte>)
    requires LeadsWith(h, host)
    ensures Sni(h.Encode() + trailing) == Some(Text(host))
  {
    var before, listLength, more, after :| LeadsIn(h, before, listLength, host, more, after);
    ClientHelloRoundTrip(h, before, after, listLength, host, more, trailing);
  }

  // ----- tests/generate_test_pcap.py -----

  /** The longest name for which the generator's length fields do not overflow. */
  const MAX_GENERATED_NAME: nat := 65470

  function GeneratedExtensions(name: seq<byte>): seq<Extension>
    requires |name| <= MAX_GENERATED_NAME
  {
    [Extension(EXTENSION_SNI, SniBody(3 + |name|, name, [])), Extension(0x002b, [0x02, 0x03, 0x04])]
  }

  lemma GeneratedLength(name: seq<byte>)
    requires |name| <= MAX_GENERATED_NAME
    ensures Fits(GeneratedExtensions(name)) && |EncodeAll(GeneratedExtensions(name))| == 16 + |name|
  {
    var exts := GeneratedExtensions(name);
    assert forall e :: e in exts ==> e == exts[0] || e == exts[1];
    assert exts[1..] == [exts[1]] && exts[1..][1..] == [];
    assert EncodeAll(exts[1..]) == EncodeExtension(exts[1]) + EncodeAll([]);
  }

  /** tls_client_hello: no session id, two cipher suites, null compression, two extensions. */
  function TlsClientHello(name: seq<byte>, random: seq<byte>): (h: ClientHello)
    requires |name| <= MAX_GENERATED_NAME && |random| == 32
    ensures h.Valid()
  {
    GeneratedLength(name);
    ClientHello(0x0301, 0x0303, random, [], [0x1301, 0x1302], [0], GeneratedExtensions(name))
  }

  // The pieces of tls_client_hello, put together as the generator does.

  function SniExt(name: seq<byte>): (b: seq<byte>)
    requires |name| <= MAX_GENERATED_NAME
    ensures |b| == 9 + |name|
  {
    var entry := [0] + PutU16(|name|) + name;
    var list := PutU16(|entry|) + entry;
    PutU16(0x0000) + PutU16(|list|) + list
  }

  function SupportedVersionsExt(): (b: seq<byte>)
    ensures |b| == 7
  {
    PutU16(0x002b) + PutU16(3) + [2] + PutU16(0x0304)
  }

  function HelloBody(name: seq<byte>, random: seq<byte>): (b: seq<byte>)
    requires |name| <= MAX_GENERATED_NAME && |random| == 32
    ensures |b| == 61 + |name|
  {
    var extensions := SniExt(name) + SupportedVersionsExt();
    PutU16(0x0303) + random + [0] + PutU16(4) + (PutU16(0x1301) + PutU16(0x1302)) + [1, 0]
    + (PutU16(|extensions|) + extensions)
  }

  function HelloRecord(name: seq<byte>, random: seq<byte>): seq<byte>
    requires |name| <= MAX_GENERATED_NAME && |random| == 32
  {
    var hello := HelloBody(name, random);
    var hs := [0x01] + PutU32(|hello|)[1..] + hello;
    [0x16] + PutU16(0x0301) + PutU16(|hs|) + hs
  }

  lemma GeneratedExtensionBytes(name: seq<byte>)
    requires |name| <= MAX_GENERATED_NAME
    ensures Fits(GeneratedExtensions(name))
            && EncodeAll(GeneratedExtensions(name)) == SniExt(name) + SupportedVersionsExt()
  {
    GeneratedLength(name);
    var exts := GeneratedExtensions(name);
    assert exts[1..] == [exts[1]] && exts[1..][1..] == [];
    assert EncodeAll(exts[1..]) == EncodeExtension(exts[1]) + EncodeAll([]);
    assert EncodeExtension(exts[1]) == SupportedVersionsExt();
    assert EncodeExtension(exts[0]) == SniExt(name);
  }

  lemma GeneratedBodyBytes(name: seq<byte>, random: seq<byte>)
    requires |name| <= MAX_GENERATED_NAME && |random| == 32
    ensures TlsClientHello(name, random).Body() == HelloBody(name, random)
  {
    var h := TlsClientHello(name, random);
    GeneratedExtensionBytes(name);
    var exts := SniExt(name) + SupportedVersionsExt();
    assert h.ciphers[1..] == [0x1302] && h.ciphers[1..][1..] == [];
    assert PutAll(h.ciphers) == PutU16(0x1301) + PutU16(0x1302);
    assert Short(h.sessionId) == [0] && Short(h.compression) == [1, 0];
    HelloGroups(PutU16(0x0303) + random, [0], PutU16(4), PutAll(h.ciphers), [1, 0], PutU16(|exts|), exts);
  }

  lemma HelloGroups<T>(v: seq<T>, s: seq<T>, n: seq<T>, c: seq<T>, m: seq<T>, l: seq<T>, e: seq<T>)
    ensures v + s + (n + c) + m + l + e == v + s + n + c + m + (l + e)
  {
  }

  /** The generator's record, byte for byte, is the encoding of the hello above. */
  lemma GeneratedBytes(name: seq<byte>, random: seq<byte>)
    requires |name| <= MAX_GENERATED_NAME && |random| == 32
    ensures HelloRecord(name, random) == TlsClientHello(name, random).Encode()
  {
    var h := TlsClientHello(name, random);
    GeneratedLength(name);
    GeneratedBodyBytes(name, random);
    assert h.BodyLength() == |HelloBody(name, random)|;
    LowBytes(h.BodyLength());
  }

  lemma LowBytes(n: nat)
    requires n < 0x1_0000
    ensures PutU32(n)[1..] == PutU24(n)
  {
  }

  lemma GeneratedRoundTrip(name: string, random: seq<byte>, trailing: seq<byte>)
    requires IsByteString(name) && |name| <= MAX_GENERATED_NAME && |random| == 32
    ensures Sni(HelloRecord(Raw(name), random) + trailing) == Some(name)
  {
    var h := TlsClientHello(Raw(name), random);
    GeneratedBytes(Raw(name), random);
    assert h.extensions == [] + [h.extensions[0]] + [h.extensions[1]];
    ClientHelloRoundTrip(h, [], [h.extensions[1]], 3 + |name|, Raw(name), [], trailing);
    TextOfRaw(name);
  }
}
