/**
 The wire format of a ClientHello (section 4.1.2 of RFC 8446) with a server_name extension
 (section 3 of RFC 6066), and what the extractor makes of it.
 */
module TlsGrammar {
  import opened Prelude
  import opened Sequences
  import opened Tls

  datatype Extension = Extension(kind: u16, body: seq<byte>)

  function EncodeExtension(e: Extension): (b: seq<byte>)
    requires |e.body| < 0x1_0000
    ensures |b| == 4 + |e.body|
  {
    PutU16(e.kind) + PutU16(|e.body|) + e.body
  }

  predicate Fits(exts: seq<Extension>) {
    forall e :: e in exts ==> |e.body| < 0x1_0000
  }

  function EncodeAll(exts: seq<Extension>): seq<byte>
    requires Fits(exts)
  {
    if exts == [] then [] else EncodeExtension(exts[0]) + EncodeAll(exts[1..])
  }

  /** A server_name body: the list length, then a host name, then whatever else the list holds. */
  function SniBody(listLength: u16, host: seq<byte>, more: seq<byte>): (b: seq<byte>)
    requires |host| < 0x1_0000
    ensures |b| == 5 + |host| + |more|
  {
    PutU16(listLength) + [SNI_TYPE_HOSTNAME] + PutU16(|host|) + host + more
  }

  /** A field of at most 255 bytes after its one-byte length. */
  function Short(field: seq<byte>): (b: seq<byte>)
    requires |field| < 0x100
    ensures |b| == 1 + |field|
  {
    [|field|] + field
  }

  /** A field of at most 65535 bytes after its two-byte length. */
  function Long(field: seq<byte>): (b: seq<byte>)
    requires |field| < 0x1_0000
    ensures |b| == 2 + |field|
  {
    PutU16(|field|) + field
  }

  /** Everything before the extensions. */
  datatype Prefix = Prefix(
    recordVersion: u16,
    recordLength: u16,
    handshakeLength: seq<byte>,
    version: seq<byte>,
    random: seq<byte>,
    sessionId: seq<byte>,
    ciphers: seq<byte>,
    compression: seq<byte>,
    extensionsLength: u16)
  {
    predicate Valid() {
      && 0x0300 <= recordVersion <= 0x0304
      && |handshakeLength| == 3 && |version| == 2 && |random| == 32
      && |sessionId| < 0x100 && |ciphers| < 0x1_0000 && |compression| < 0x100
    }

    function Fixed(): (b: seq<byte>)
      requires Valid()
      ensures |b| == 43
    {
      [CONTENT_TYPE_HANDSHAKE] + PutU16(recordVersion) + PutU16(recordLength)
      + [HANDSHAKE_CLIENT_HELLO] + handshakeLength + version + random
    }

    function Encode(): (b: seq<byte>)
      requires Valid()
      ensures |b| == 43 + 1 + |sessionId| + 2 + |ciphers| + 1 + |compression| + 2
    {
      Fixed() + Short(sessionId) + Long(ciphers) + Short(compression) + PutU16(extensionsLength)
    }
  }

  /** A payload read as prefix, extensions of other types, a server_name extension and the rest. */
  datatype Reading = Reading(
    prefix: Prefix,
    skipped: seq<Extension>,
    listLength: u16,
    host: seq<byte>,
    more: seq<byte>,
    rest: seq<byte>)
  {
    function Body(): seq<byte>
      requires |host| < 0x1_0000
    {
      SniBody(listLength, host, more)
    }

    predicate Valid() {
      && prefix.Valid()
      && Fits(skipped)
      && (forall e :: e in skipped ==> e.kind != EXTENSION_SNI)
      && 3 <= listLength
      && 5 + |host| + |more| < 0x1_0000
    }

    function Extensions(): seq<byte>
      requires Valid()
    {
      EncodeAll(skipped) + EncodeExtension(Extension(EXTENSION_SNI, Body()))
    }

    /** The announced lengths cover what has to be read and no more than is there. */
    predicate Describes(p: seq<byte>)
      requires Valid()
    {
      && p == prefix.Encode() + Extensions() + rest
      && prefix.recordLength <= |p| - 5
      && |Extensions()| <= prefix.extensionsLength
    }
  }

  // ----- encoding to extraction -----

  lemma ShortRead(p: seq<byte>, k: nat, field: seq<byte>, rest: seq<byte>)
    requires k <= |p| && |field| < 0x100 && p[k..] == Short(field) + rest
    ensures SkipShort(p, k) == Some(k + 1 + |field|) && p[k + 1 + |field|..] == rest
  {
    Advance(p, k, Short(field), rest);
    assert p[k] == Short(field)[0];
  }

  lemma LongRead(p: seq<byte>, k: nat, field: seq<byte>, rest: seq<byte>)
    requires k <= |p| && |field| < 0x1_0000 && p[k..] == Long(field) + rest
    ensures SkipLong(p, k) == Some(k + 2 + |field|) && p[k + 2 + |field|..] == rest
  {
    Advance(p, k, Long(field), rest);
    assert p[k] == Long(field)[0] && p[k + 1] == Long(field)[1];
  }

  lemma NumberRead(p: seq<byte>, k: nat, n: u16, rest: seq<byte>)
    requires k <= |p| && p[k..] == PutU16(n) + rest
    ensures k + 2 <= |p| && U16At(p, k) == n && p[k + 2..] == rest
  {
    Advance(p, k, PutU16(n), rest);
    assert p[k] == PutU16(n)[0] && p[k + 1] == PutU16(n)[1];
  }

  /** The three variable fields and the extensions length, read one after the other. */
  lemma FieldsRead(p: seq<byte>, sessionId: seq<byte>, ciphers: seq<byte>, compression: seq<byte>, n: u16,
                   rest: seq<byte>)
    requires IsClientHello(p) && 43 <= |p|
    requires |sessionId| < 0x100 && |ciphers| < 0x1_0000 && |compression| < 0x100
    requires p[43..] == Short(sessionId) + (Long(ciphers) + (Short(compression) + (PutU16(n) + rest)))
    ensures var k := 43 + 1 + |sessionId| + 2 + |ciphers| + 1 + |compression|;
            ExtensionsAt(p) == Some(k) && U16At(p, k) == n
  {
    var t3 := PutU16(n) + rest;
    var t2 := Short(compression) + t3;
    var t1 := Long(ciphers) + t2;
    ShortRead(p, 43, sessionId, t1);
    LongRead(p, 44 + |sessionId|, ciphers, t2);
    ShortRead(p, 46 + |sessionId| + |ciphers|, compression, t3);
    NumberRead(p, 47 + |sessionId| + |ciphers| + |compression|, n, rest);
    FieldsSkipped(p, 44 + |sessionId|, 46 + |sessionId| + |ciphers|, 47 + |sessionId| + |ciphers| + |compression|);
  }

  lemma FieldsSkipped(p: seq<byte>, k1: nat, k2: nat, k3: nat)
    requires IsClientHello(p) && k3 + 2 <= |p|
    requires SkipShort(p, 43) == Some(k1) && SkipLong(p, k1) == Some(k2) && SkipShort(p, k2) == Some(k3)
    ensures ExtensionsAt(p) == Some(k3)
  {
  }

  lemma PrefixRead(p: seq<byte>, x: Prefix, rest: seq<byte>)
    requires x.Valid() && p == x.Encode() + rest && x.recordLength <= |p| - 5
    ensures ExtensionsAt(p) == Some(|x.Encode()| - 2) && U16At(p, |x.Encode()| - 2) == x.extensionsLength
  {
    var s1, s2, s3 := Short(x.sessionId), Long(x.ciphers), Short(x.compression);
    var s4 := PutU16(x.extensionsLength);
    FiveParts(x.Fixed(), s1, s2, s3, s4, rest);
    Advance(p, 0, x.Fixed(), s1 + (s2 + (s3 + (s4 + rest))));
    FixedRead(p, x);
    FieldsRead(p, x.sessionId, x.ciphers, x.compression, x.extensionsLength, rest);
  }

  lemma FixedRead(p: seq<byte>, x: Prefix)
    requires x.Valid() && |p| >= 43 && x.recordLength <= |p| - 5
    requires forall i :: 0 <= i < 43 ==> p[i] == x.Fixed()[i]
    ensures IsClientHello(p)
  {
    var f := x.Fixed();
    assert f[0] == CONTENT_TYPE_HANDSHAKE && f[5] == HANDSHAKE_CLIENT_HELLO;
    assert f[1] == PutU16(x.recordVersion)[0] && f[2] == PutU16(x.recordVersion)[1];
    assert f[3] == PutU16(x.recordLength)[0] && f[4] == PutU16(x.recordLength)[1];
  }

  lemma ExtensionRead(p: seq<byte>, k: nat, e: Extension, rest: seq<byte>)
    requires k <= |p| && |e.body| < 0x1_0000 && p[k..] == EncodeExtension(e) + rest
    ensures k + 4 + |e.body| <= |p| && U16At(p, k) == e.kind && U16At(p, k + 2) == |e.body|
    ensures p[k + 4..k + 4 + |e.body|] == e.body && p[k + 4 + |e.body|..] == rest
  {
    var head := PutU16(e.kind) + PutU16(|e.body|);
    assert p[k..] == head + (e.body + rest);
    Advance(p, k, head, e.body + rest);
    assert p[k] == head[0] && p[k + 1] == head[1] && p[k + 2] == head[2] && p[k + 3] == head[3];
    Advance(p, k + 4, e.body, rest);
  }

  lemma HostNameRead(p: seq<byte>, k: nat, listLength: u16, host: seq<byte>, more: seq<byte>)
    requires 3 <= listLength && 5 + |host| + |more| < 0x1_0000
    requires k + 5 + |host| + |more| <= |p|
    requires p[k..k + 5 + |host| + |more|] == SniBody(listLength, host, more)
    ensures HostNameAt(p, k, 5 + |host| + |more|) == Some(Text(host))
  {
    var n := 5 + |host| + |more|;
    var body := SniBody(listLength, host, more);
    assert p[k..] == p[k..k + n] + p[k + n..];
    Advance(p, k, body, p[k + n..]);
    assert p[k] == body[0] && p[k + 1] == body[1] && p[k + 2] == body[2] && p[k + 3] == body[3] && p[k + 4] == body[4];
    assert body[5..5 + |host|] == host;
    assert p[k + 5..k + 5 + |host|] == host;
  }

  /** Whole extensions of other types from `k` to `j`, read off the length fields. */
  predicate SkipsTo(p: seq<byte>, k: nat, j: nat)
    requires j <= |p|
    decreases j - k
  {
    if k >= j then k == j
    else
      && k + 4 <= j && k + 4 + U16At(p, k + 2) <= j
      && U16At(p, k) != EXTENSION_SNI && SkipsTo(p, k + 4 + U16At(p, k + 2), j)
  }

  /** They are walked over. */
  lemma {:induction false} WalkSkips(p: seq<byte>, k: nat, j: nat, end: nat)
    requires j <= end <= |p| && SkipsTo(p, k, j)
    ensures Walk(p, k, end) == Walk(p, j, end)
    decreases j - k
  {
    if k < j {
      WalkSkips(p, k + 4 + U16At(p, k + 2), j, end);
    }
  }

  /** Extensions of other types from `k` to `j`, and then `rest`. */
  ghost predicate Others(p: seq<byte>, k: nat, j: nat, skipped: seq<Extension>, rest: seq<byte>) {
    && Fits(skipped) && (forall e :: e in skipped ==> e.kind != EXTENSION_SNI)
    && k <= |p| && p[k..] == EncodeAll(skipped) + rest && j == k + |EncodeAll(skipped)|
  }

  lemma OthersAfter(p: seq<byte>, k: nat, j: nat, skipped: seq<Extension>, rest: seq<byte>)
    returns (e: Extension, others: seq<Extension>, tail: seq<byte>)
    requires Others(p, k, j, skipped, rest) && skipped != []
    ensures |e.body| < 0x1_0000 && e.kind != EXTENSION_SNI && p[k..] == EncodeExtension(e) + tail
    ensures |others| < |skipped| && k + 4 + |e.body| <= j <= |p|
    ensures Others(p, k + 4 + |e.body|, j, others, rest)
  {
    e, others := skipped[0], skipped[1..];
    tail := EncodeAll(others) + rest;
    Assoc(EncodeExtension(e), EncodeAll(others), rest);
    Advance(p, k, EncodeExtension(e), tail);
  }

  lemma {:induction false} OthersSkip(p: seq<byte>, k: nat, j: nat, skipped: seq<Extension>, rest: seq<byte>)
    requires Others(p, k, j, skipped, rest) && j <= |p|
    ensures SkipsTo(p, k, j)
    decreases |skipped|
  {
    if skipped != [] {
      var e, others, tail := OthersAfter(p, k, j, skipped, rest);
      ExtensionRead(p, k, e, tail);
      OthersSkip(p, k + 4 + |e.body|, j, others, rest);
    }
  }

  /** A server_name extension decides. */
  lemma WalkDecides(p: seq<byte>, k: nat, end: nat, listLength: u16, host: seq<byte>, more: seq<byte>, rest: seq<byte>)
    requires 3 <= listLength && 5 + |host| + |more| < 0x1_0000
    requires k + 9 + |host| + |more| <= end <= |p|
    requires p[k..] == EncodeExtension(Extension(EXTENSION_SNI, SniBody(listLength, host, more))) + rest
    ensures Walk(p, k, end) == Some(Text(host))
  {
    ExtensionRead(p, k, Extension(EXTENSION_SNI, SniBody(listLength, host, more)), rest);
    HostNameRead(p, k + 4, listLength, host, more);
  }

  /** `p` holds the extensions and the rest at `k`, and they end by `end`. */
  ghost predicate Holds(p: seq<byte>, k: nat, end: nat, r: Reading) {
    && r.Valid() && k <= end <= |p|
    && p[k..] == r.Extensions() + r.rest && k + |r.Extensions()| <= end
  }

  lemma WalkFinds(p: seq<byte>, k: nat, end: nat, r: Reading)
    requires Holds(p, k, end, r)
    ensures Walk(p, k, end) == Some(Text(r.host))
  {
    var sni := EncodeExtension(Extension(EXTENSION_SNI, r.Body()));
    Assoc(EncodeAll(r.skipped), sni, r.rest);
    var j := k + |EncodeAll(r.skipped)|;
    Advance(p, k, EncodeAll(r.skipped), sni + r.rest);
    OthersSkip(p, k, j, r.skipped, sni + r.rest);
    WalkSkips(p, k, j, end);
    WalkDecides(p, j, end, r.listLength, r.host, r.more, r.rest);
  }

  lemma SuffixAfter<T>(p: seq<T>, a: seq<T>, rest: seq<T>)
    requires p == a + rest
    ensures p[|a|..] == rest
  {
  }

  lemma ReadingExtracts(p: seq<byte>, r: Reading)
    requires r.Valid() && r.Describes(p)
    ensures Sni(p) == Some(Text(r.host))
  {
    var x := r.prefix.Encode();
    Assoc(x, r.Extensions(), r.rest);
    PrefixRead(p, r.prefix, r.Extensions() + r.rest);
    SniFrom(p, |x| - 2);
    DescribedHolds(p, r);
    WalkFinds(p, |x|, Min(|x| + r.prefix.extensionsLength, |p|), r);
  }

  lemma SniFrom(p: seq<byte>, k: nat)
    requires ExtensionsAt(p) == Some(k)
    ensures Sni(p) == Walk(p, k + 2, Min(k + 2 + U16At(p, k), |p|))
  {
  }

  lemma DescribedHolds(p: seq<byte>, r: Reading)
    requires r.Valid() && r.Describes(p)
    ensures var k := |r.prefix.Encode()|; Holds(p, k, Min(k + r.prefix.extensionsLength, |p|), r)
  {
    var x := r.prefix.Encode();
    Assoc(x, r.Extensions(), r.rest);
    SuffixAfter(p, x, r.Extensions() + r.rest);
  }

  // ----- extraction to grammar -----

  lemma ShortParse(p: seq<byte>, k: nat)
    requires SkipShort(p, k).Some?
    ensures k < SkipShort(p, k).value <= |p| && SkipShort(p, k).value == k + 1 + p[k]
    ensures Short(p[k + 1..k + 1 + p[k]]) == p[k..k + 1 + p[k]]
  {
  }

  lemma LongParse(p: seq<byte>, k: nat)
    requires SkipLong(p, k).Some?
    ensures k + 2 <= SkipLong(p, k).value <= |p| && SkipLong(p, k).value == k + 2 + U16At(p, k)
    ensures Long(p[k + 2..k + 2 + U16At(p, k)]) == p[k..k + 2 + U16At(p, k)]
  {
    PutOfU16(p, k);
  }

  lemma FixedParse(p: seq<byte>, x: Prefix)
    requires x.Valid() && |p| >= 43 && p[0] == CONTENT_TYPE_HANDSHAKE && p[5] == HANDSHAKE_CLIENT_HELLO
    requires x.recordVersion == U16At(p, 1) && x.recordLength == U16At(p, 3)
    requires x.handshakeLength == p[6..9] && x.version == p[9..11] && x.random == p[11..43]
    ensures x.Fixed() == p[..43]
  {
    PutOfU16(p, 1);
    PutOfU16(p, 3);
    assert p[..43] == [p[0]] + p[1..3] + p[3..5] + [p[5]] + p[6..9] + p[9..11] + p[11..43];
  }

  lemma FivePieces<T>(p: seq<T>, i: nat, j: nat, k: nat, m: nat, n: nat)
    requires i <= j <= k <= m <= n <= |p|
    ensures p[..n] == p[..i] + p[i..j] + p[j..k] + p[k..m] + p[m..n]
  {
  }

  lemma PrefixParse(p: seq<byte>, k: nat) returns (x: Prefix)
    requires ExtensionsAt(p) == Some(k)
    ensures x.Valid() && p[..k + 2] == x.Encode()
    ensures x.recordLength == U16At(p, 3) && x.extensionsLength == U16At(p, k)
  {
    var k1 := SkipShort(p, 43).value;
    var k2 := SkipLong(p, k1).value;
    ShortParse(p, 43);
    LongParse(p, k1);
    ShortParse(p, k2);
    PutOfU16(p, k);
    x := Prefix(U16At(p, 1), U16At(p, 3), p[6..9], p[9..11], p[11..43], p[44..k1],
                p[k1 + 2..k2], p[k2 + 1..k], U16At(p, k));
    FixedParse(p, x);
    PrefixPieces(p, x, k1, k2, k);
  }

  lemma PrefixPieces(p: seq<byte>, x: Prefix, k1: nat, k2: nat, k: nat)
    requires x.Valid() && 43 <= k1 <= k2 <= k && k + 2 <= |p|
    requires x.Fixed() == p[..43] && Short(x.sessionId) == p[43..k1] && Long(x.ciphers) == p[k1..k2]
    requires Short(x.compression) == p[k2..k] && PutU16(x.extensionsLength) == p[k..k + 2]
    ensures p[..k + 2] == x.Encode()
  {
    assert x.Encode() == p[..43] + p[43..k1] + p[k1..k2] + p[k2..k] + p[k..k + 2];
    FivePieces(p, 43, k1, k2, k, k + 2);
  }

  lemma ExtensionParse(p: seq<byte>, k: nat)
    requires k + 4 <= |p| && k + 4 + U16At(p, k + 2) <= |p|
    ensures var n := U16At(p, k + 2);
            EncodeExtension(Extension(U16At(p, k), p[k + 4..k + 4 + n])) == p[k..k + 4 + n]
  {
    PutOfU16(p, k);
    PutOfU16(p, k + 2);
  }

  lemma HostNameParse(p: seq<byte>, k: nat, n: nat) returns (host: seq<byte>, more: seq<byte>)
    requires k + n <= |p| && n < 0x1_0000 && HostNameAt(p, k, n).Some?
    ensures 5 + |host| + |more| == n && SniBody(U16At(p, k), host, more) == p[k..k + n]
    ensures HostNameAt(p, k, n) == Some(Text(host))
  {
    var m := U16At(p, k + 3);
    host, more := p[k + 5..k + 5 + m], p[k + 5 + m..k + n];
    PutOfU16(p, k);
    PutOfU16(p, k + 3);
    assert p[k..k + n] == p[k..k + 2] + [p[k + 2]] + p[k + 3..k + 5] + host + more;
  }

  lemma SniReading(x: Prefix, listLength: u16, host: seq<byte>, more: seq<byte>, rest: seq<byte>) returns (r: Reading)
    requires x.Valid() && 3 <= listLength && 5 + |host| + |more| < 0x1_0000
    ensures r.Valid() && r.prefix == x && r.host == host && r.rest == rest
    ensures r.Extensions() == EncodeExtension(Extension(EXTENSION_SNI, SniBody(listLength, host, more)))
  {
    r := Reading(x, [], listLength, host, more, rest);
    var sni := EncodeExtension(Extension(EXTENSION_SNI, SniBody(listLength, host, more)));
    assert [] + sni == sni;
  }

  lemma SniParts(p: seq<byte>, k: nat, next: nat) returns (listLength: u16, host: seq<byte>, more: seq<byte>)
    requires k + 4 <= next <= |p| && U16At(p, k) == EXTENSION_SNI && next == k + 4 + U16At(p, k + 2)
    requires HostNameAt(p, k + 4, next - k - 4).Some?
    ensures 3 <= listLength && 5 + |host| + |more| < 0x1_0000 && HostNameAt(p, k + 4, next - k - 4) == Some(Text(host))
    ensures EncodeExtension(Extension(EXTENSION_SNI, SniBody(listLength, host, more))) == p[k..next]
  {
    listLength := U16At(p, k + 4);
    host, more := HostNameParse(p, k + 4, next - k - 4);
    ExtensionParse(p, k);
  }

  lemma ParsedSni(p: seq<byte>, k: nat, end: nat, x: Prefix) returns (r: Reading)
    requires end <= |p| && k <= |p| && Walk(p, k, end).Some? && x.Valid()
    requires U16At(p, k) == EXTENSION_SNI
    ensures r.prefix == x && Holds(p, k, end, r) && Walk(p, k, end) == Some(Text(r.host))
  {
    var next := k + 4 + U16At(p, k + 2);
    var listLength, host, more := SniParts(p, k, next);
    r := SniReading(x, listLength, host, more, p[next..]);
    SplitAt(p, k, next);
  }

  lemma SplitAt<T>(p: seq<T>, i: nat, j: nat)
    requires i <= j <= |p|
    ensures p[i..] == p[i..j] + p[j..]
  {
  }

  lemma ParsedOther(p: seq<byte>, k: nat, end: nat, r': Reading) returns (r: Reading)
    requires k + 4 <= end <= |p| && k + 4 + U16At(p, k + 2) <= end && U16At(p, k) != EXTENSION_SNI
    requires Holds(p, k + 4 + U16At(p, k + 2), end, r')
    ensures r.prefix == r'.prefix && r.host == r'.host && Holds(p, k, end, r)
  {
    var next := k + 4 + U16At(p, k + 2);
    var e := Extension(U16At(p, k), p[k + 4..next]);
    r := r'.(skipped := [e] + r'.skipped);
    assert r.skipped[1..] == r'.skipped;
    Assoc(EncodeExtension(e), EncodeAll(r'.skipped), EncodeExtension(Extension(EXTENSION_SNI, r.Body())));
    ExtensionParse(p, k);
    Assoc(EncodeExtension(e), r'.Extensions(), r'.rest);
    SplitAt(p, k, next);
  }

  lemma {:induction false} WalkParse(p: seq<byte>, k: nat, end: nat, x: Prefix) returns (r: Reading)
    requires end <= |p| && k <= |p| && Walk(p, k, end).Some? && x.Valid()
    ensures r.prefix == x && Holds(p, k, end, r) && Walk(p, k, end) == Some(Text(r.host))
    decreases end - k
  {
    if U16At(p, k) == EXTENSION_SNI {
      r := ParsedSni(p, k, end, x);
    } else {
      var r' := WalkParse(p, k + 4 + U16At(p, k + 2), end, x);
      r := ParsedOther(p, k, end, r');
    }
  }

  ghost predicate HasReading(p: seq<byte>, host: string) {
    exists r: Reading :: r.Valid() && r.Describes(p) && Text(r.host) == host
  }

  lemma SniReads(p: seq<byte>) returns (r: Reading)
    requires Sni(p).Some?
    ensures r.Valid() && r.Describes(p) && Some(Text(r.host)) == Sni(p)
  {
    var k := ExtensionsAt(p).value;
    var x := PrefixParse(p, k);
    SniFrom(p, k);
    r := WalkParse(p, k + 2, Min(k + 2 + U16At(p, k), |p|), x);
    HoldsDescribes(p, k + 2, r);
  }

  lemma HoldsDescribes(p: seq<byte>, k: nat, r: Reading)
    requires Holds(p, k, Min(k + r.prefix.extensionsLength, |p|), r) && p[..k] == r.prefix.Encode()
    requires r.prefix.recordLength <= |p| - 5
    ensures r.Describes(p)
  {
    assert p == p[..k] + p[k..];
    Assoc(r.prefix.Encode(), r.Extensions(), r.rest);
  }

  /**
   For every payload, the extractor returns a name exactly when the payload reads as a
   ClientHello whose first server_name extension leads with that host name.
   */
  lemma SniCharacterised(p: seq<byte>, host: string)
    ensures Sni(p) == Some(host) <==> HasReading(p, host)
  {
    if Sni(p) == Some(host) {
      var r := SniReads(p);
      assert HasReading(p, host);
    } else if HasReading(p, host) {
      var r: Reading :| r.Valid() && r.Describes(p) && Text(r.host) == host;
      ReadingExtracts(p, r);
      assert false;
    }
  }

  /** A name once found is still found when any bytes are appended. */
  lemma AppendStable(p: seq<byte>, q: seq<byte>)
    requires Sni(p).Some?
    ensures Sni(p + q) == Sni(p)
  {
    var host := Sni(p).value;
    SniCharacterised(p, host);
    var r: Reading :| r.Valid() && r.Describes(p) && Text(r.host) == host;
    var r' := r.(rest := r.rest + q);
    assert r'.Extensions() == r.Extensions();
    Assoc(r.prefix.Encode() + r.Extensions(), r.rest, q);
    assert r'.Describes(p + q);
    SniCharacterised(p + q, host);
  }
}
