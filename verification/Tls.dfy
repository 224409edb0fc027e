/** SNIExtractor of src/sni_extractor.cpp, against a grammar of ClientHello records. */
module Tls {
  import opened Prelude

  const CONTENT_TYPE_HANDSHAKE: byte := 0x16
  const HANDSHAKE_CLIENT_HELLO: byte := 0x01
  const EXTENSION_SNI: u16 := 0x0000
  const SNI_TYPE_HOSTNAME: byte := 0x00

  // ----- the extractor -----

  predicate IsClientHello(p: seq<byte>) {
    && |p| >= 9
    && p[0] == CONTENT_TYPE_HANDSHAKE
    && 0x0300 <= U16At(p, 1) <= 0x0304
    && U16At(p, 3) <= |p| - 5
    && p[5] == HANDSHAKE_CLIENT_HELLO
  }

  /** Skips a field whose length is the byte at `k`. */
  function SkipShort(p: seq<byte>, k: nat): (next: Option<nat>)
    ensures next.Some? ==> k < next.value <= |p|
  {
    if k >= |p| || k + 1 + p[k] > |p| then None else Some(k + 1 + p[k])
  }

  /** Skips a field whose length is the two bytes at `k`. */
  function SkipLong(p: seq<byte>, k: nat): (next: Option<nat>)
    ensures next.Some? ==> k + 2 <= next.value <= |p|
  {
    if k + 2 > |p| || k + 2 + U16At(p, k) > |p| then None else Some(k + 2 + U16At(p, k))
  }

  /** Offset of the two bytes holding the total length of the extensions. */
  function ExtensionsAt(p: seq<byte>): (k: Option<nat>)
    ensures k.Some? ==> 43 <= k.value && k.value + 2 <= |p|
  {
    if !IsClientHello(p) then None
    else
      match SkipShort(p, 43)
      case None => None
      case Some(k1) =>
        match SkipLong(p, k1)
        case None => None
        case Some(k2) =>
          match SkipShort(p, k2)
          case None => None
          case Some(k3) => if k3 + 2 > |p| then None else Some(k3)
  }

  function Min(a: nat, b: nat): nat {
    if a < b then a else b
  }

  /** The host name leading the server_name body of `n` bytes at `k`, if there is one that fits. */
  function HostNameAt(p: seq<byte>, k: nat, n: nat): Option<string>
    requires k + n <= |p|
  {
    if n < 5 || U16At(p, k) < 3 || p[k + 2] != SNI_TYPE_HOSTNAME || U16At(p, k + 3) > n - 5 then None
    else Some(Text(p[k + 5..k + 5 + U16At(p, k + 3)]))
  }

  /** Walks the extensions from `k`: the first one of type 0 decides. */
  function Walk(p: seq<byte>, k: nat, end: nat): Option<string>
    requires end <= |p|
    decreases end - k
  {
    if k + 4 > end || k + 4 + U16At(p, k + 2) > end then None
    else
      var next := k + 4 + U16At(p, k + 2);
      if U16At(p, k) == EXTENSION_SNI then HostNameAt(p, k + 4, next - k - 4) else Walk(p, next, end)
  }

  function Sni(p: seq<byte>): Option<string> {
    match ExtensionsAt(p)
    case None => None
    case Some(k) => Walk(p, k + 2, Min(k + 2 + U16At(p, k), |p|))
  }

  /** The source's offset walk: it terminates and every read is in bounds. */
  method Extract(payload: seq<byte>) returns (sni: Option<string>)
    ensures sni == Sni(payload)
  {
    if !IsClientHello(payload) { return None; }
    var length := |payload|;
    var offset := 9;
    if offset + 2 > length { return None; }
    offset := offset + 2;
    if offset + 32 > length { return None; }
    offset := offset + 32;
    if offset >= length { return None; }
    var sessionIdLength := payload[offset];
    offset := offset + 1;
    if offset + sessionIdLength > length { return None; }
    offset := offset + sessionIdLength;
    assert SkipShort(payload, 43) == Some(offset);
    ghost var k1 := offset;
    if offset + 2 > length { return None; }
    var cipherLength := U16At(payload, offset);
    offset := offset + 2 + cipherLength;
    if offset > length { return None; }
    assert SkipLong(payload, k1) == Some(offset);
    ghost var k2 := offset;
    if offset >= length { return None; }
    var compressionLength := payload[offset];
    offset := offset + 1;
    if offset + compressionLength > length { return None; }
    offset := offset + compressionLength;
    assert SkipShort(payload, k2) == Some(offset);
    if offset + 2 > length { return None; }
    sni := WalkExtensions(payload, offset);
  }

  /** The body of a server_name extension: every test that fails ends the walk. */
  method ReadServerName(payload: seq<byte>, offset: nat, extLength: nat) returns (sni: Option<string>)
    requires offset + extLength <= |payload|
    ensures sni == HostNameAt(payload, offset, extLength)
  {
    if extLength < 5 { return None; }
    if U16At(payload, offset) < 3 { return None; }
    var sniType := payload[offset + 2];
    var sniLength := U16At(payload, offset + 3);
    if sniType != SNI_TYPE_HOSTNAME { return None; }
    if sniLength > extLength - 5 { return None; }
    return Some(Text(payload[offset + 5..offset + 5 + sniLength]));
  }

  /** The extension loop of the same function. */
  method WalkExtensions(payload: seq<byte>, start: nat) returns (sni: Option<string>)
    requires start + 2 <= |payload|
    ensures sni == Walk(payload, start + 2, Min(start + 2 + U16At(payload, start), |payload|))
  {
    var total := U16At(payload, start);
    var offset := start + 2;
    var end := offset + total;
    if end > |payload| { end := |payload|; }
    while offset + 4 <= end
      invariant offset <= |payload| && end <= |payload|
      invariant Walk(payload, start + 2, end) == Walk(payload, offset, end)
    {
      var kind := U16At(payload, offset);
      var extLength := U16At(payload, offset + 2);
      offset := offset + 4;
      if offset + extLength > end { break; }
      if kind == EXTENSION_SNI {
        sni := ReadServerName(payload, offset, extLength);
        return;
      }
      offset := offset + extLength;
    }
    return None;
  }
}
