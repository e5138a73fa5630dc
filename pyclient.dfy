/** The Python reference sender (client_example.py): its key derivation,
    packet encryption, tagging and the datagram `send_vpn_packet` sends. */
module PyClient {
  import opened Crypto
  import opened Wrappers
  import Codec

  /** `PSK` as shipped. Its comment says 32 bytes; the literal has 31. */
  const PskText: string := "this-is-a-strong-32byte-secret-"
  const Psk: seq<byte> := AsciiBytes(PskText)
  /** `SERVER_IP` and `UDP_PORT`: where `send_vpn_packet` sends. */
  const ServerIp: string := "127.0.0.1"
  const UdpPort: nat := 1194
  /** `PBKDF2_SALT` and `PBKDF2_ITERATIONS` */
  const Pbkdf2Salt: seq<byte> := AsciiBytes("cipherwall-salt-2025")
  const Pbkdf2Iterations: nat := 100000
  /** `segment_size=128` in `AES.new`: CFB over whole 128-bit blocks, the mode
      Go's `cipher.NewCFBEncrypter` implements, so `cfbEncrypt` is the same
      primitive for both. */
  const SegmentSizeBits: nat := 128

  /** A datagram handed to `sock.sendto` with its destination. */
  datatype Outgoing = Outgoing(datagram: seq<byte>, host: string, port: nat)

  /** `derive_keys`: PBKDF2-HMAC-SHA256 with `dklen=64`, split in halves. No
      length check is made on `psk`. */
  function DeriveKeys(c: Primitives, psk: seq<byte>): (keys: (seq<byte>, seq<byte>))
    requires Sound(c)
    ensures |keys.0| == 32 && |keys.1| == 32
    ensures keys.0 + keys.1 == c.pbkdf2(psk, Pbkdf2Salt, Pbkdf2Iterations, 64)
  {
    var masterKey := c.pbkdf2(psk, Pbkdf2Salt, Pbkdf2Iterations, 64);
    (masterKey[..32], masterKey[32..])
  }

  /** `encrypt_packet`: `iv` is the 16 bytes `get_random_bytes(16)` drew. */
  function EncryptPacket(c: Primitives, plaintext: seq<byte>, aesKey: seq<byte>, iv: seq<byte>): (r: seq<byte>)
    requires Sound(c)
    requires |iv| == 16 && AesKeySizeOk(|aesKey|)
    ensures |r| == 16 + |plaintext|
    ensures r[..16] == iv
    ensures r[16..] == c.cfbEncrypt(aesKey, iv, plaintext)
  {
    var ciphertext := c.cfbEncrypt(aesKey, iv, plaintext);
    assert (iv + ciphertext)[16..] == ciphertext;
    iv + ciphertext
  }

  /** `add_hmac`: the HMAC-SHA256 digest of `data`, then `data`. */
  function AddHmac(c: Primitives, data: seq<byte>, hmacKey: seq<byte>): (r: seq<byte>)
    requires Sound(c)
    ensures |r| == 32 + |data|
    ensures r[32..] == data
    ensures r[..32] == c.hmacSha256(hmacKey, data)
  {
    var digest := c.hmacSha256(hmacKey, data);
    assert (digest + data)[32..] == data;
    digest + data
  }

  /** `send_vpn_packet`: what goes to `sock.sendto`. */
  function SendVpnPacket(c: Primitives, ipPacket: seq<byte>, aesKey: seq<byte>, hmacKey: seq<byte>,
                         iv: seq<byte>): (out: Outgoing)
    requires Sound(c)
    requires |iv| == 16 && AesKeySizeOk(|aesKey|)
    ensures out.host == ServerIp && out.port == UdpPort
    ensures |out.datagram| == |ipPacket| + 48
  {
    var encrypted := EncryptPacket(c, ipPacket, aesKey, iv);
    var authenticated := AddHmac(c, encrypted, hmacKey);
    Outgoing(authenticated, ServerIp, UdpPort)
  }

  /** For a 32-byte key the script derives the same two keys as the Go
      `deriveKeys` (same salt, iteration count and output length); for any
      other length it still derives keys where Go would abort. */
  lemma DeriveKeysAgreesWithGo(c: Primitives, psk: seq<byte>)
    requires Sound(c)
    ensures var (aesKey, hmacKey) := DeriveKeys(c, psk);
            Codec.DeriveKeys(c, psk) ==
              if |psk| == Codec.KeyLen then Success(Codec.KeyMaterial(aesKey, hmacKey)) else Failure(|psk|)
  {
    assert Pbkdf2Salt == Codec.Pbkdf2Salt;
  }

  /** The datagram the script sends is byte for byte the frame Go's
      `encryptAndAuthenticate` produces from the same keys and IV. */
  lemma FrameAgreesWithGo(c: Primitives, ipPacket: seq<byte>, aesKey: seq<byte>, hmacKey: seq<byte>,
                          iv: seq<byte>)
    requires Sound(c)
    requires |iv| == 16 && AesKeySizeOk(|aesKey|)
    ensures SendVpnPacket(c, ipPacket, aesKey, hmacKey, iv).datagram
            == Codec.EncryptAndAuthenticate(c, Codec.KeyMaterial(aesKey, hmacKey), Some(iv), ipPacket).value
  {
    var encrypted := EncryptPacket(c, ipPacket, aesKey, iv);
    var goEncrypted := Codec.Encrypt(c, aesKey, Some(iv), ipPacket).value;
    assert encrypted == goEncrypted by {
      assert encrypted == encrypted[..16] + encrypted[16..];
      assert goEncrypted == goEncrypted[..16] + goEncrypted[16..];
    }
    var frame := AddHmac(c, encrypted, hmacKey);
    var goFrame := Codec.AddHmac(c, hmacKey, goEncrypted);
    assert frame == frame[..32] + frame[32..];
    assert goFrame == goFrame[..32] + goFrame[32..];
  }
}
