/**
 * hashlib.sha256(...).hexdigest() is taken as an arbitrary total function
 * from text to 64 lowercase hexadecimal characters; no property of SHA-256
 * beyond that shape is used.
 */
module Digest {
  predicate IsHexDigit(c: char) { '0' <= c <= '9' || 'a' <= c <= 'f' }

  predicate IsHexDigest(s: string)
  {
    |s| == 64 && forall i :: 0 <= i < |s| ==> IsHexDigit(s[i])
  }

  const ZeroDigest: string := seq(64, _ => '0')

  type HexDigest = s: string | IsHexDigest(s) witness ZeroDigest

  type Sha256 = string -> HexDigest

  /** The first eight hex characters of the digest, as `hexdigest()[:8]`. */
  function Short(sha: Sha256, s: string): (r: string)
    ensures |r| == 8 && r == sha(s)[..8]
    ensures forall i :: 0 <= i < 8 ==> IsHexDigit(r[i])
  {
    sha(s)[..8]
  }
}
