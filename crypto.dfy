/** Stand-ins for the cryptographic primitives the authentication core calls.
    Their internals are not modelled: each is a deterministic, injective
    function whose only purpose is to carry the properties the core relies on
    (a reset token is found again by hashing it, a bcrypt comparison accepts
    exactly the password that was hashed). */
module Crypto {

  /** Account identifiers are MongoDB ObjectIds, shown as strings. */
  type Id = string

  newtype byte = x: int | 0 <= x < 256

  predicate IsHexChar(c: char)
  {
    '0' <= c <= '9' || 'a' <= c <= 'f'
  }

  function HexDigit(n: nat): (c: char)
    requires n < 16
    ensures IsHexChar(c)
  {
    if n < 10 then ('0' as int + n) as char else ('a' as int + n - 10) as char
  }

  /** Distinct nibbles have distinct digits. */
  lemma HexDigitInjective(m: nat, n: nat)
    requires m < 16 && n < 16 && HexDigit(m) == HexDigit(n)
    ensures m == n
  {
  }

  /** `Buffer.toString('hex')`: two lower-case hex digits per byte, high nibble first. */
  function HexEncode(bytes: seq<byte>): (r: string)
    ensures |r| == 2 * |bytes|
    ensures forall i | 0 <= i < |r| :: IsHexChar(r[i])
    ensures forall i | 0 <= i < |bytes| ::
              r[2 * i] == HexDigit(bytes[i] as nat / 16) && r[2 * i + 1] == HexDigit(bytes[i] as nat % 16)
  {
    if bytes == [] then ""
    else
      var rest := HexEncode(bytes[1..]);
      var r := [HexDigit(bytes[0] as nat / 16), HexDigit(bytes[0] as nat % 16)] + rest;
      assert forall k | 2 <= k < |r| :: r[k] == rest[k - 2];
      assert forall i | 1 <= i < |bytes| :: bytes[i] == bytes[1..][i - 1];
      r
  }

  /** The hex token determines the bytes it was made from: two different
      random buffers never give the same token. */
  lemma {:induction false} HexEncodeInjective(a: seq<byte>, b: seq<byte>)
    ensures HexEncode(a) == HexEncode(b) <==> a == b
  {
    if HexEncode(a) == HexEncode(b) {
      forall i | 0 <= i < |a|
        ensures a[i] == b[i]
      {
        HexDigitInjective(a[i] as nat / 16, b[i] as nat / 16);
        HexDigitInjective(a[i] as nat % 16, b[i] as nat % 16);
      }
    }
  }

  /** A prefix can be cancelled from both sides of an equation. */
  lemma {:induction false} CancelPrefix(p: string, a: string, b: string)
    requires p + a == p + b
    ensures a == b
  {
    assert a == (p + a)[|p|..];
    assert b == (p + b)[|p|..];
  }

  /** SHA-256 (FIPS 180-4) as a hex digest; the stand-in is an injective tagging. */
  function H(s: string): string
  {
    "sha256:" + s
  }

  lemma HInjective(a: string, b: string)
    ensures H(a) == H(b) <==> a == b
  {
    if H(a) == H(b) { CancelPrefix("sha256:", a, b); }
  }

  /** bcrypt hash with the hook's cost factor 8 (the `08` in the prefix);
      the salt is not modelled. */
  function BHash(p: string): string
  {
    "$2a$08$" + p
  }

  /** bcrypt.compare(candidate, stored). */
  predicate BCompare(candidate: string, stored: string)
  {
    stored == BHash(candidate)
  }

  /** A stored bcrypt hash accepts its own password and no other. */
  lemma BCompareExactly(candidate: string, p: string)
    ensures BCompare(candidate, BHash(p)) <==> candidate == p
  {
    if BCompare(candidate, BHash(p)) { CancelPrefix("$2a$08$", candidate, p); }
  }

  /** The claims a JWT carries here: the custom `id` claim the service signs
      (the account's id) and `iat` (RFC 7519, section 4.1.6), in whole
      seconds since the epoch. */
  datatype Claims = Claims(id: Id, iat: nat)

  /** Why `jwt.verify` rejects a token. */
  datatype TokenError = Expired | Invalid

  /** `iat` that jsonwebtoken writes for a token signed at `nowMs`: floor(ms / 1000). */
  function IssuedAt(nowMs: nat): (s: nat)
    ensures s * 1000 <= nowMs < s * 1000 + 1000
  {
    nowMs / 1000
  }
}
