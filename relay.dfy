/** What both Go relay loops share: the 1500-byte receive buffer, the
    outcome of one loop pass, and the ingress pass (read, check, decrypt,
    write to TUN), which client.go and main.go run alike apart from the
    server's peer bookkeeping. */
module Relay {
  import opened Wrappers
  import opened Crypto
  import opened Codec

  /** `BUFFER_SIZE`: each loop reads into one buffer of this many bytes. */
  const BufferSize: nat := 1500
  /** The largest plaintext whose sealed frame fits that buffer whole. */
  const MaxPlaintext: nat := BufferSize - Overhead

  /** A UDP address, identified by its `String()` form ("ip:port"), which is
      how the server compares addresses. */
  type Addr = string

  /** Why one loop pass ends without writing or sending anything. Each is a
      `continue` in the Go loops, after a log line. */
  datatype DropReason =
    | ReadFailed                   // the UDP or TUN read returned an error
    | BadFrame(check: FrameError)  // an ingress check failed
    | NoClient                     // server egress: no "default" client yet
    | SealFailed(cause: CodecError) // encryptAndAuthenticate returned an error

  /** What one pass of a relay loop does with what it read. */
  datatype Action =
    | Drop(reason: DropReason)
    | WriteTun(packet: seq<byte>)      // iface.Write(decryptedData)
    | Send(frame: seq<byte>, to: Addr) // conn.Write / conn.WriteToUDP

  /** What a read into a buffer of `capacity` bytes keeps of a datagram or
      packet that arrived as `bytes`: all of it if it fits, otherwise its
      first `capacity` bytes (the rest is discarded, as a UDP read does). */
  function Received(bytes: seq<byte>, capacity: nat): (r: seq<byte>)
    ensures |r| <= capacity
    ensures r <= bytes
    ensures |bytes| <= capacity <==> r == bytes
  {
    if |bytes| <= capacity then bytes else bytes[..capacity]
  }

  /** `conn.Read(buffer)` / `iface.Read(buffer)` on the loop's reused buffer:
      the first `n` bytes are overwritten with what was received and the
      bytes after them keep whatever an earlier pass left there. */
  method ReadInto(buffer: array<byte>, bytes: seq<byte>) returns (n: nat)
    modifies buffer
    ensures n <= buffer.Length
    ensures buffer[..n] == Received(bytes, buffer.Length)
    ensures buffer[n..] == old(buffer[n..])
  {
    n := if |bytes| <= buffer.Length then |bytes| else buffer.Length;
    forall i | 0 <= i < n {
      buffer[i] := bytes[i];
    }
  }

  /** One pass of an ingress loop, from the read on: `read` is the datagram
      as it arrived, or None when the read failed. Only a frame that passes
      every check of `Open` reaches the TUN device, and what is written is
      the decryption of what follows the IV, never more than MaxPlaintext
      bytes. */
  function Ingress(c: Primitives, keys: KeyMaterial, read: Option<seq<byte>>): (a: Action)
    requires Sound(c)
    ensures !a.Send?
    ensures read.None? ==> a == Drop(ReadFailed)
    ensures a.WriteTun? <==>
              && read.Some?
              && var packet := Received(read.value, BufferSize);
              && |packet| >= Overhead
              && AesKeySizeOk(|keys.aesKey|)
              && VerifyHmac(c, keys.hmacKey, packet[HmacLen..], packet[..HmacLen])
    ensures a.WriteTun? ==>
              var packet := Received(read.value, BufferSize);
              && a.packet == c.cfbDecrypt(keys.aesKey, packet[HmacLen..Overhead], packet[Overhead..])
              && |a.packet| <= MaxPlaintext
  {
    match read
    case None => Drop(ReadFailed)
    case Some(bytes) =>
      match Open(c, keys, Received(bytes, BufferSize))
      case Failure(e) => Drop(BadFrame(e))
      case Success(plaintext) => WriteTun(plaintext)
  }

  /** The frame sealed for a packet arrives whole at a 1500-byte buffer
      exactly when the packet has at most MaxPlaintext bytes. */
  lemma SealedFrameFits(c: Primitives, keys: KeyMaterial, iv: seq<byte>, plaintext: seq<byte>)
    requires Sound(c)
    requires |iv| == IvLen && AesKeySizeOk(|keys.aesKey|)
    ensures var frame := EncryptAndAuthenticate(c, keys, Some(iv), plaintext).value;
            Received(frame, BufferSize) == frame <==> |plaintext| <= MaxPlaintext
  {
  }

  /** End to end over one datagram: the ingress pass under the sender's keys
      writes back exactly the packet that was sealed if and only if it has at
      most MaxPlaintext bytes; a longer one is cut by the buffer and never
      reaches the TUN device intact. */
  lemma SealedPacketDelivered(c: Primitives, keys: KeyMaterial, iv: seq<byte>, plaintext: seq<byte>)
    requires Sound(c)
    requires |iv| == IvLen && AesKeySizeOk(|keys.aesKey|)
    ensures var frame := EncryptAndAuthenticate(c, keys, Some(iv), plaintext).value;
            Ingress(c, keys, Some(frame)) == WriteTun(plaintext) <==> |plaintext| <= MaxPlaintext
  {
    var frame := EncryptAndAuthenticate(c, keys, Some(iv), plaintext).value;
    if |plaintext| <= MaxPlaintext {
      SealThenOpen(c, keys, iv, plaintext);
      assert Received(frame, BufferSize) == frame;
    }
  }
}
