/** The cryptographic library calls the tunnel makes, kept abstract.

    PBKDF2 (section 5.2 of RFC 8018), HMAC-SHA256 (RFC 2104 over FIPS 180-4) and
    AES in full-block CFB mode (FIPS 197, section 6.3 of NIST SP 800-38A) are not
    modelled internally. A `Primitives` value bundles one function per call, and
    `Sound` states the only facts the tunnel relies on: output lengths, and that
    CFB decryption under the same key and IV undoes CFB encryption. Every result
    of the model holds for every bundle satisfying `Sound`. */
module Crypto {

  /** One octet, as Go's `byte` and Python's `bytes` elements. */
  newtype byte = x: int | 0 <= x < 256

  /** Length in bytes of an HMAC-SHA256 tag (`HMAC_LEN` in both Go files). */
  const HmacLen: nat := 32
  /** The AES block size, which is also the CFB IV length (`IV_LEN = aes.BlockSize`). */
  const AesBlockSize: nat := 16

  datatype Primitives = Primitives(
    /** pbkdf2(password, salt, iterations, keyLen) with HMAC-SHA256 as the PRF */
    pbkdf2: (seq<byte>, seq<byte>, nat, nat) -> seq<byte>,
    /** hmacSha256(key, message): the 32-byte tag */
    hmacSha256: (seq<byte>, seq<byte>) -> seq<byte>,
    /** cfbEncrypt(key, iv, plaintext): AES-CFB with 128-bit segments */
    cfbEncrypt: (seq<byte>, seq<byte>, seq<byte>) -> seq<byte>,
    /** cfbDecrypt(key, iv, ciphertext): the matching decrypter */
    cfbDecrypt: (seq<byte>, seq<byte>, seq<byte>) -> seq<byte>)

  /** The facts about the library that the tunnel depends on. */
  ghost predicate Sound(c: Primitives)
  {
    && (forall pw, salt, iterations, keyLen :: |c.pbkdf2(pw, salt, iterations, keyLen)| == keyLen)
    && (forall key, msg :: |c.hmacSha256(key, msg)| == HmacLen)
    && (forall key, iv, p :: |c.cfbEncrypt(key, iv, p)| == |p|)
    && (forall key, iv, x :: |c.cfbDecrypt(key, iv, x)| == |x|)
    && (forall key, iv, p :: c.cfbDecrypt(key, iv, c.cfbEncrypt(key, iv, p)) == p)
  }

  /** Key sizes `aes.NewCipher` accepts (AES-128, AES-192, AES-256); any
      other length makes it return a `KeySizeError`. */
  predicate AesKeySizeOk(n: nat)
  {
    n == 16 || n == 24 || n == 32
  }

  /** The bytes of an ASCII string, as Go's `[]byte(s)` and a Python `b"..."`
      literal give them (UTF-8 coincides with ASCII below 128). */
  function AsciiBytes(s: string): (r: seq<byte>)
    requires forall i :: 0 <= i < |s| ==> s[i] as int < 128
    ensures |r| == |s|
    ensures forall i :: 0 <= i < |s| ==> r[i] as int == s[i] as int
  {
    seq(|s|, i requires 0 <= i < |s| => s[i] as int as byte)
  }

  /** A bundle that meets `Sound` (all-zero derivations and tags, identity
      cipher). It shows the assumptions are consistent, nothing more. */
  function ConsistencyWitness(): (c: Primitives)
    ensures Sound(c)
  {
    Primitives(
      (pw: seq<byte>, salt: seq<byte>, iterations: nat, keyLen: nat) => seq(keyLen, _ => 0 as byte),
      (key: seq<byte>, msg: seq<byte>) => seq(HmacLen, _ => 0 as byte),
      (key: seq<byte>, iv: seq<byte>, p: seq<byte>) => p,
      (key: seq<byte>, iv: seq<byte>, x: seq<byte>) => x)
  }
}
