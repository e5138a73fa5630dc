/** The client program (client.go): its pre-shared key, the key globals and
    one pass of each relay loop over the UDP socket connected to the server. */
module GoClient {
  import opened Wrappers
  import opened Crypto
  import opened Codec
  import opened Relay

  /** `PSK` as shipped: 32 bytes, as its comment says. */
  const PskText: string := "this-is-strong-32byte-secret-key"
  const Psk: seq<byte> := AsciiBytes(PskText)

  /** One pass of the client's egress loop: a TUN read error drops the
      packet; otherwise it is sealed with the IV drawn for this pass and
      written to the connected socket, that is, to `server`. */
  function Egress(c: Primitives, keys: KeyMaterial, server: Addr,
                  read: Option<seq<byte>>, iv: Option<seq<byte>>): (a: Action)
    requires Sound(c)
    requires iv.Some? ==> |iv.value| == IvLen
    ensures !a.WriteTun?
    ensures read.None? ==> a == Drop(ReadFailed)
    ensures a.Send? <==> read.Some? && AesKeySizeOk(|keys.aesKey|) && iv.Some?
    ensures a.Send? ==> a.to == server
    ensures a.Send? ==> |a.frame| == |Received(read.value, BufferSize)| + Overhead
  {
    match read
    case None => Drop(ReadFailed)
    case Some(bytes) =>
      match EncryptAndAuthenticate(c, keys, iv, Received(bytes, BufferSize))
      case Failure(e) => Drop(SealFailed(e))
      case Success(frame) => Send(frame, server)
  }

  /** The client process: the key globals and the two loops' buffers. */
  class Client {
    const c: Primitives
    /** The address given with `-server`, to which the socket is connected. */
    const server: Addr
    var aesKey: seq<byte>
    var hmacKey: seq<byte>
    const inBuffer: array<byte>
    const outBuffer: array<byte>

    ghost predicate Valid()
      reads this
    {
      && Sound(c)
      && inBuffer.Length == BufferSize
      && outBuffer.Length == BufferSize
      && inBuffer != outBuffer
    }

    function Keys(): KeyMaterial
      reads this
    {
      KeyMaterial(aesKey, hmacKey)
    }

    /** Start-up state: the key globals are still nil. */
    constructor (c: Primitives, server: Addr)
      requires Sound(c)
      ensures Valid()
      ensures this.c == c && this.server == server && aesKey == [] && hmacKey == []
      ensures fresh(inBuffer) && fresh(outBuffer)
    {
      this.c := c;
      this.server := server;
      aesKey, hmacKey := [], [];
      inBuffer := new byte[BufferSize];
      outBuffer := new byte[BufferSize];
    }

    /** `deriveKeys`. When it returns false the Go program has called
        `log.Fatalf` and the process is gone; the globals are untouched. */
    method DeriveKeys(psk: seq<byte>) returns (ok: bool)
      requires Valid()
      modifies this`aesKey, this`hmacKey
      ensures Valid()
      ensures ok <==> Codec.DeriveKeys(c, psk).Success?
      ensures ok ==> Keys() == Codec.DeriveKeys(c, psk).value
      ensures !ok ==> Keys() == old(Keys())
    {
      if |psk| != KeyLen {
        return false;
      }
      var masterKey := c.pbkdf2(psk, Pbkdf2Salt, Pbkdf2Iterations, KeyLen * 2);
      aesKey := masterKey[..KeyLen];
      hmacKey := masterKey[KeyLen..];
      ok := true;
    }

    /** One pass of `handleIncomingPackets`: the checks of `Open` on the bytes
        read, then the TUN write. */
    method HandleIncoming(read: Option<seq<byte>>) returns (a: Action)
      requires Valid()
      modifies inBuffer
      ensures a == Ingress(c, Keys(), read)
    {
      if read.None? {
        return Drop(ReadFailed);
      }
      var n := ReadInto(inBuffer, read.value);
      if n < HmacLen {
        return Drop(BadFrame(TooShort));
      }
      var packet := inBuffer[..n];
      var receivedHmac := packet[..HmacLen];
      var dataWithIv := packet[HmacLen..];
      if !VerifyHmac(c, hmacKey, dataWithIv, receivedHmac) {
        return Drop(BadFrame(AuthenticationFailure));
      }
      var decrypted := Decrypt(c, aesKey, dataWithIv);
      if decrypted.Failure? {
        return Drop(BadFrame(DecryptFailed(decrypted.error)));
      }
      a := WriteTun(decrypted.value);
    }

    /** One pass of `handleOutgoingPackets`; `iv` is what the random source
        yields for this pass. */
    method HandleOutgoing(read: Option<seq<byte>>, iv: Option<seq<byte>>) returns (a: Action)
      requires Valid()
      requires iv.Some? ==> |iv.value| == IvLen
      modifies outBuffer
      ensures a == Egress(c, Keys(), server, read, iv)
    {
      if read.None? {
        return Drop(ReadFailed);
      }
      var n := ReadInto(outBuffer, read.value);
      var packet := outBuffer[..n];
      var sealed := EncryptAndAuthenticate(c, Keys(), iv, packet);
      if sealed.Failure? {
        return Drop(SealFailed(sealed.error));
      }
      a := Send(sealed.value, server);
    }
  }

  /** The client as shipped passes key derivation. */
  lemma ShippedPskDerives(c: Primitives)
    requires Sound(c)
    ensures |Psk| == KeyLen
    ensures Codec.DeriveKeys(c, Psk).Success?
  {
  }
}
