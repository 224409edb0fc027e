/** Stock datatypes, machine integers and big-endian byte accessors shared by every module. */
module Prelude {

  datatype Option<+T> = None | Some(value: T)

  type byte = b: int | 0 <= b < 0x100
  type u16 = n: int | 0 <= n < 0x1_0000
  type u32 = n: int | 0 <= n < 0x1_0000_0000

  /** The two bytes at `k`, most significant first. */
  function U16At(p: seq<byte>, k: nat): u16
    requires k + 2 <= |p|
  {
    p[k] as int * 0x100 + p[k + 1] as int
  }

  /** The four bytes at `k`, most significant first. */
  function U32At(p: seq<byte>, k: nat): u32
    requires k + 4 <= |p|
  {
    U16At(p, k) as int * 0x1_0000 + U16At(p, k + 2) as int
  }

  function PutU16(n: u16): (b: seq<byte>)
    ensures |b| == 2
  {
    [n / 0x100, n % 0x100]
  }

  lemma PutOfU16(p: seq<byte>, k: nat)
    requires k + 2 <= |p|
    ensures PutU16(U16At(p, k)) == p[k..k + 2]
  {
  }

  function PutU32(n: u32): (b: seq<byte>)
    ensures |b| == 4
  {
    PutU16(n / 0x1_0000) + PutU16(n % 0x1_0000)
  }

  /** A C++ std::string built from raw bytes: one char per byte. */
  function Text(bytes: seq<byte>): (s: string)
    ensures |s| == |bytes|
    ensures forall i :: 0 <= i < |s| ==> s[i] == bytes[i] as char
  {
    seq(|bytes|, i requires 0 <= i < |bytes| => bytes[i] as char)
  }

  /** Every character of `s` fits a byte. */
  predicate IsByteString(s: string) {
    forall i :: 0 <= i < |s| ==> s[i] as int < 0x100
  }

  function Raw(s: string): (bytes: seq<byte>)
    requires IsByteString(s)
    ensures |bytes| == |s|
    ensures forall i :: 0 <= i < |s| ==> bytes[i] == s[i] as int
  {
    seq(|s|, i requires 0 <= i < |s| => s[i] as int)
  }

  lemma TextOfRaw(s: string)
    requires IsByteString(s)
    ensures Text(Raw(s)) == s
  {
  }

  /** Reading a suffix that starts with `a` moves on to what follows `a`. */
  lemma Advance<T>(p: seq<T>, k: nat, a: seq<T>, rest: seq<T>)
    requires k <= |p| && p[k..] == a + rest
    ensures k + |a| <= |p| && p[k + |a|..] == rest && p[k..k + |a|] == a
    ensures forall i :: 0 <= i < |a| ==> p[k + i] == a[i]
  {
    assert |p| - k == |a| + |rest|;
    assert forall i :: 0 <= i < |a| ==> p[k + i] == p[k..][i];
    assert p[k + |a|..] == p[k..][|a|..];
  }
}
