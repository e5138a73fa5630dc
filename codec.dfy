/** The tunnel's frame codec as the two Go programs implement it: key
    derivation and split, CFB encryption with the IV in front, the HMAC tag in
    front of that, and the ordered checks that open a received frame.

    Wire frame: tag (32 bytes) ‖ IV (16 bytes) ‖ ciphertext (as long as the
    plaintext). The tag is HMAC-SHA256 over IV ‖ ciphertext under the HMAC key;
    the ciphertext is AES-CFB under the AES key and that IV.

    client.go and main.go define every function here alike (main.go adds only
    comments, log lines and a longer error message), so the model has it
    once. */
module Codec {
  import opened Wrappers
  import opened Crypto

  /** `KEY_LEN`: the AES-256 key length, also the HMAC key length. */
  const KeyLen: nat := 32
  /** `IV_LEN = aes.BlockSize` */
  const IvLen: nat := AesBlockSize
  /** Frame overhead: the tag and the IV. */
  const Overhead: nat := HmacLen + IvLen
  /** `PBKDF2_ITERATIONS` */
  const Pbkdf2Iterations: nat := 100000
  /** `PBKDF2_SALT`, as `[]byte(PBKDF2_SALT)` gives it */
  const Pbkdf2Salt: seq<byte> := AsciiBytes("cipherwall-salt-2025")

  /** The two keys `deriveKeys` stores in the globals `aesKey` and `hmacKey`. */
  datatype KeyMaterial = KeyMaterial(aesKey: seq<byte>, hmacKey: seq<byte>)

  /** The errors the codec functions return. */
  datatype CodecError =
    | CipherInit    // aes.NewCipher rejected the key length
    | RandomSource  // io.ReadFull(rand.Reader, iv) failed
    | DataTooShort  // decrypt got fewer than IV_LEN bytes

  /** Why the ingress checks drop a received frame. */
  datatype FrameError =
    | TooShort                        // fewer than HMAC_LEN bytes
    | AuthenticationFailure           // verifyHMAC returned false
    | DecryptFailed(cause: CodecError) // decrypt returned an error

  /** The 64-byte PBKDF2-HMAC-SHA256 output `deriveKeys` splits. */
  function MasterKey(c: Primitives, psk: seq<byte>): seq<byte>
  {
    c.pbkdf2(psk, Pbkdf2Salt, Pbkdf2Iterations, KeyLen * 2)
  }

  /** `deriveKeys`: a pre-shared key of any length other than 32 is fatal
      (the error carries the length `log.Fatalf` reports); otherwise the
      master key is split into the AES key (first half) and the HMAC key
      (second half). */
  function DeriveKeys(c: Primitives, psk: seq<byte>): (r: Result<KeyMaterial, nat>)
    requires Sound(c)
    ensures r.Success? <==> |psk| == KeyLen
    ensures r.Failure? ==> r.error == |psk|
    ensures r.Success? ==> |r.value.aesKey| == KeyLen && |r.value.hmacKey| == KeyLen
    ensures r.Success? ==> r.value.aesKey + r.value.hmacKey == MasterKey(c, psk)
  {
    if |psk| != KeyLen then
      Failure(|psk|)
    else
      var masterKey := MasterKey(c, psk);
      Success(KeyMaterial(masterKey[..KeyLen], masterKey[KeyLen..]))
  }

  /** `encrypt`: the cipher is set up before the IV is drawn, so a bad key
      wins over a failing random source. `iv` is what `io.ReadFull` drew from
      `rand.Reader`, or None when it failed. */
  function Encrypt(c: Primitives, aesKey: seq<byte>, iv: Option<seq<byte>>, plaintext: seq<byte>)
    : (r: Result<seq<byte>, CodecError>)
    requires Sound(c)
    requires iv.Some? ==> |iv.value| == IvLen
    ensures r.Success? <==> AesKeySizeOk(|aesKey|) && iv.Some?
    ensures !AesKeySizeOk(|aesKey|) ==> r == Failure(CipherInit)
    ensures AesKeySizeOk(|aesKey|) && iv.None? ==> r == Failure(RandomSource)
    ensures r.Success? ==> |r.value| == IvLen + |plaintext|
    ensures r.Success? ==> r.value[..IvLen] == iv.value
    ensures r.Success? ==> r.value[IvLen..] == c.cfbEncrypt(aesKey, iv.value, plaintext)
  {
    if !AesKeySizeOk(|aesKey|) then
      Failure(CipherInit)
    else if iv.None? then
      Failure(RandomSource)
    else
      var ciphertext := c.cfbEncrypt(aesKey, iv.value, plaintext);
      assert (iv.value + ciphertext)[IvLen..] == ciphertext;
      Success(iv.value + ciphertext)
  }

  /** `decrypt`: the length check comes before the cipher set-up; the first
      IV_LEN bytes are the IV, the rest is decrypted under it. */
  function Decrypt(c: Primitives, aesKey: seq<byte>, data: seq<byte>): (r: Result<seq<byte>, CodecError>)
    requires Sound(c)
    ensures r.Success? <==> |data| >= IvLen && AesKeySizeOk(|aesKey|)
    ensures |data| < IvLen ==> r == Failure(DataTooShort)
    ensures |data| >= IvLen && !AesKeySizeOk(|aesKey|) ==> r == Failure(CipherInit)
    ensures r.Success? ==> |r.value| == |data| - IvLen
    ensures r.Success? ==> r.value == c.cfbDecrypt(aesKey, data[..IvLen], data[IvLen..])
  {
    if |data| < IvLen then
      Failure(DataTooShort)
    else if !AesKeySizeOk(|aesKey|) then
      Failure(CipherInit)
    else
      Success(c.cfbDecrypt(aesKey, data[..IvLen], data[IvLen..]))
  }

  /** `addHMAC`: the tag over `data`, then `data` unchanged. */
  function AddHmac(c: Primitives, hmacKey: seq<byte>, data: seq<byte>): (r: seq<byte>)
    requires Sound(c)
    ensures |r| == HmacLen + |data|
    ensures r[HmacLen..] == data
    ensures r[..HmacLen] == c.hmacSha256(hmacKey, data)
  {
    var tag := c.hmacSha256(hmacKey, data);
    assert (tag + data)[HmacLen..] == data;
    tag + data
  }

  /** `verifyHMAC`: recompute the tag and compare with `hmac.Equal`, which is
      false for slices of different lengths. Its constant running time is not
      modelled. */
  function VerifyHmac(c: Primitives, hmacKey: seq<byte>, data: seq<byte>, receivedHmac: seq<byte>): (ok: bool)
    requires Sound(c)
    ensures ok ==> |receivedHmac| == HmacLen
    ensures ok <==> receivedHmac == AddHmac(c, hmacKey, data)[..HmacLen]
  {
    c.hmacSha256(hmacKey, data) == receivedHmac
  }

  /** `encryptAndAuthenticate`: encrypt, then prepend the tag. */
  function EncryptAndAuthenticate(c: Primitives, keys: KeyMaterial, iv: Option<seq<byte>>, plaintext: seq<byte>)
    : (r: Result<seq<byte>, CodecError>)
    requires Sound(c)
    requires iv.Some? ==> |iv.value| == IvLen
    ensures r.Success? <==> Encrypt(c, keys.aesKey, iv, plaintext).Success?
    ensures r.Failure? ==> r == Encrypt(c, keys.aesKey, iv, plaintext)
    ensures r.Success? ==> |r.value| == |plaintext| + Overhead
    ensures r.Success? ==> r.value[HmacLen..] == Encrypt(c, keys.aesKey, iv, plaintext).value
    ensures r.Success? ==> VerifyHmac(c, keys.hmacKey, r.value[HmacLen..], r.value[..HmacLen])
  {
    match Encrypt(c, keys.aesKey, iv, plaintext)
    case Failure(e) => Failure(e)
    case Success(encrypted) => Success(AddHmac(c, keys.hmacKey, encrypted))
  }

  /** The checks both ingress loops run on the `n` bytes read, in order: at
      least HMAC_LEN bytes, then the tag, then `decrypt` (which needs IV_LEN
      more bytes). The result is what the loop writes to the TUN device. */
  function Open(c: Primitives, keys: KeyMaterial, packet: seq<byte>): (r: Result<seq<byte>, FrameError>)
    requires Sound(c)
    ensures |packet| < HmacLen ==> r == Failure(TooShort)
    ensures |packet| >= HmacLen && !VerifyHmac(c, keys.hmacKey, packet[HmacLen..], packet[..HmacLen]) ==>
              r == Failure(AuthenticationFailure)
    ensures r.Success? <==>
              && |packet| >= Overhead
              && AesKeySizeOk(|keys.aesKey|)
              && VerifyHmac(c, keys.hmacKey, packet[HmacLen..], packet[..HmacLen])
    ensures r.Success? ==> |r.value| == |packet| - Overhead
    ensures r.Success? ==> r.value == c.cfbDecrypt(keys.aesKey, packet[HmacLen..Overhead], packet[Overhead..])
  {
    if |packet| < HmacLen then
      Failure(TooShort)
    else
      var receivedHmac := packet[..HmacLen];
      var dataWithIv := packet[HmacLen..];
      if !VerifyHmac(c, keys.hmacKey, dataWithIv, receivedHmac) then
        Failure(AuthenticationFailure)
      else
        match Decrypt(c, keys.aesKey, dataWithIv)
        case Failure(e) => Failure(DecryptFailed(e))
        case Success(plaintext) =>
          assert dataWithIv[..IvLen] == packet[HmacLen..Overhead];
          assert dataWithIv[IvLen..] == packet[Overhead..];
          Success(plaintext)
  }

  /** `decrypt` undoes `encrypt` under the same AES key. */
  lemma DecryptInvertsEncrypt(c: Primitives, aesKey: seq<byte>, iv: seq<byte>, plaintext: seq<byte>)
    requires Sound(c)
    requires |iv| == IvLen && AesKeySizeOk(|aesKey|)
    ensures Decrypt(c, aesKey, Encrypt(c, aesKey, Some(iv), plaintext).value) == Success(plaintext)
  {
    var encrypted := Encrypt(c, aesKey, Some(iv), plaintext).value;
    assert encrypted[..IvLen] == iv;
  }

  /** Round trip: a frame sealed by `encryptAndAuthenticate` passes every
      ingress check under the same keys and yields the plaintext. */
  lemma SealThenOpen(c: Primitives, keys: KeyMaterial, iv: seq<byte>, plaintext: seq<byte>)
    requires Sound(c)
    requires |iv| == IvLen && AesKeySizeOk(|keys.aesKey|)
    ensures EncryptAndAuthenticate(c, keys, Some(iv), plaintext).Success?
    ensures Open(c, keys, EncryptAndAuthenticate(c, keys, Some(iv), plaintext).value) == Success(plaintext)
  {
    var frame := EncryptAndAuthenticate(c, keys, Some(iv), plaintext).value;
    DecryptInvertsEncrypt(c, keys.aesKey, iv, plaintext);
    assert frame[HmacLen..] == Encrypt(c, keys.aesKey, Some(iv), plaintext).value;
  }

  /** The ingress checks accept a frame only if its tag is the HMAC, under the
      receiver's key, of everything after the tag: a sealed frame whose body is
      replaced, or which is opened under another HMAC key, fails
      authentication whenever the recomputed tag differs from the one carried. */
  lemma ForeignTagRejected(c: Primitives, keys: KeyMaterial, other: KeyMaterial, iv: seq<byte>,
                           plaintext: seq<byte>, body: seq<byte>)
    requires Sound(c)
    requires |iv| == IvLen && AesKeySizeOk(|other.aesKey|)
    requires c.hmacSha256(keys.hmacKey, body)
             != c.hmacSha256(other.hmacKey, Encrypt(c, other.aesKey, Some(iv), plaintext).value)
    ensures var frame := EncryptAndAuthenticate(c, other, Some(iv), plaintext).value;
            Open(c, keys, frame[..HmacLen] + body) == Failure(AuthenticationFailure)
  {
    var frame := EncryptAndAuthenticate(c, other, Some(iv), plaintext).value;
    var forged := frame[..HmacLen] + body;
    assert forged[..HmacLen] == frame[..HmacLen];
    assert forged[HmacLen..] == body;
  }

  /** A frame of 32 to 47 bytes whose tag verifies still reaches no TUN
      write: `decrypt` rejects the fewer than 16 bytes after the tag. */
  lemma AuthenticButShortFrameRejected(c: Primitives, keys: KeyMaterial, packet: seq<byte>)
    requires Sound(c)
    requires HmacLen <= |packet| < Overhead
    requires VerifyHmac(c, keys.hmacKey, packet[HmacLen..], packet[..HmacLen])
    ensures Open(c, keys, packet) == Failure(DecryptFailed(DataTooShort))
  {
  }
}
