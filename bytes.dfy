/**
  Byte strings, the SHA-256 digest and the lowercase hex encoding that
  turns a digest into a transaction or block identifier
  (`hex.EncodeToString(sha256.Sum256(...))`).
 */
module Bytes {
  import opened Wrappers

  type byte = x: int | 0 <= x < 256

  /** A Go `[]byte`; a Go `string` is the same immutable sequence of bytes. */
  type Bytes = seq<byte>

  /** A SHA-256 digest: exactly 32 bytes. */
  type Digest = d: Bytes | |d| == 32 witness seq(32, _ => 0)

  /**
    `sha256.Sum256` is not modelled: every operation that hashes receives the
    digest function as a parameter of this type, so nothing is assumed about it
    beyond its result being 32 bytes.
   */
  type Hasher = Bytes -> Digest

  /** The ASCII codes of '0'..'9' and 'a'..'f'. */
  predicate IsLowerHexDigit(c: byte) {
    48 <= c <= 57 || 97 <= c <= 102
  }

  /** The character of "0123456789abcdef" at position n. */
  function HexDigit(n: int): (c: byte)
    requires 0 <= n < 16
    ensures IsLowerHexDigit(c)
  {
    if n < 10 then 48 + n else 87 + n
  }

  /** The value of one lowercase hex digit; the inverse of HexDigit. */
  function HexValue(c: byte): (n: int)
    requires IsLowerHexDigit(c)
    ensures 0 <= n < 16 && HexDigit(n) == c
  {
    if c <= 57 then c - 48 else c - 87
  }

  /** `hex.EncodeToString`: two lowercase digits per byte, high nibble first. */
  function HexEncode(d: Bytes): (r: Bytes)
    ensures |r| == 2 * |d|
    ensures forall i :: 0 <= i < |r| ==> IsLowerHexDigit(r[i])
  {
    if d == [] then [] else [HexDigit(d[0] / 16), HexDigit(d[0] % 16)] + HexEncode(d[1..])
  }

  /** Reads back what HexEncode writes; `None` on odd length or a non-digit. */
  function HexDecode(s: Bytes): (r: Option<Bytes>)
    ensures r.Some? ==> 2 * |r.value| == |s|
  {
    if s == [] then Some([])
    else if |s| == 1 || !IsLowerHexDigit(s[0]) || !IsLowerHexDigit(s[1]) then None
    else
      match HexDecode(s[2..])
      case None => None
      case Some(rest) => Some([16 * HexValue(s[0]) + HexValue(s[1])] + rest)
  }

  /** Hex encoding loses nothing: decoding the encoding gives the bytes back. */
  lemma {:induction false} HexRoundTrip(d: Bytes)
    ensures HexDecode(HexEncode(d)) == Some(d)
  {
    if d != [] {
      var s := HexEncode(d);
      assert s[2..] == HexEncode(d[1..]);
      HexRoundTrip(d[1..]);
      assert HexValue(HexDigit(d[0] / 16)) == d[0] / 16;
      assert HexValue(HexDigit(d[0] % 16)) == d[0] % 16;
      assert [d[0]] + d[1..] == d;
    }
  }

  /** Two distinct digests never share an identifier. */
  lemma HexEncodeInjective(a: Bytes, b: Bytes)
    requires HexEncode(a) == HexEncode(b)
    ensures a == b
  {
    HexRoundTrip(a);
    HexRoundTrip(b);
  }

  /** An identifier: the hex form of a SHA-256 digest, 64 lowercase hex digits. */
  predicate IsHexId(id: Bytes) {
    |id| == 64 && forall i :: 0 <= i < |id| ==> IsLowerHexDigit(id[i])
  }

  /** `hex.EncodeToString(sha256.Sum256(input))`, the identifier of a hash input. */
  function HashId(sha256: Hasher, input: Bytes): (id: Bytes)
    ensures IsHexId(id)
    ensures HexDecode(id) == Some(sha256(input))
  {
    HexRoundTrip(sha256(input));
    HexEncode(sha256(input))
  }
}
