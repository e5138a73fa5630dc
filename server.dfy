/** The server program (main.go): its pre-shared key, the key globals, the
    `clientAddrs` map with its single "default" slot, and one pass of each
    relay loop. */
module GoServer {
  import opened Wrappers
  import opened Crypto
  import opened Codec
  import opened Relay

  /** `PSK` as shipped. Its comment says 32 bytes; the literal has 30. */
  const PskText: string := "this-is-a-strong-32byte-secret"
  const Psk: seq<byte> := AsciiBytes(PskText)

  /** The only key `clientAddrs` is ever used with. */
  const DefaultKey: string := "default"

  /** What the client-tracking step logged. */
  datatype PeerEvent = NewClient | ClientUpdated | ClientUnchanged

  /** The client address the egress loop sends to, if any. */
  function Current(clientAddrs: map<string, Addr>): Option<Addr>
  {
    if DefaultKey in clientAddrs then Some(clientAddrs[DefaultKey]) else None
  }

  /** `clientAddrs` after one pass of the ingress loop. Every successful read
      stores its source address in the "default" slot (the map already holds
      it when the string forms match); a failed read changes nothing. */
  function AfterReceive(clientAddrs: map<string, Addr>, read: Option<Datagram>): (m: map<string, Addr>)
    ensures read.Some? ==> Current(m) == Some(read.value.from)
    ensures read.None? ==> m == clientAddrs
    ensures m.Keys == if read.Some? then clientAddrs.Keys + {DefaultKey} else clientAddrs.Keys
  {
    match read
    case None => clientAddrs
    case Some(d) => clientAddrs[DefaultKey := d.from]
  }

  /** One datagram as `ReadFromUDP` returns it: the bytes that arrived and the
      sender's address. */
  datatype Datagram = Datagram(bytes: seq<byte>, from: Addr)

  /** The bytes of a read, or None when it failed. */
  function Payload(read: Option<Datagram>): Option<seq<byte>>
  {
    match read
    case None => None
    case Some(d) => Some(d.bytes)
  }

  /** `clientAddrs` after the ingress loop has handled every read of `trace`,
      in order. */
  function PeerAfter(clientAddrs: map<string, Addr>, trace: seq<Option<Datagram>>): (m: map<string, Addr>)
    ensures clientAddrs.Keys <= m.Keys <= clientAddrs.Keys + {DefaultKey}
  {
    if trace == [] then clientAddrs
    else AfterReceive(PeerAfter(clientAddrs, trace[..|trace| - 1]), trace[|trace| - 1])
  }

  /** The packets the ingress loop writes to the TUN device over `trace`. */
  function TunWrites(c: Primitives, keys: KeyMaterial, trace: seq<Option<Datagram>>): seq<seq<byte>>
    requires Sound(c)
  {
    if trace == [] then []
    else
      var earlier := TunWrites(c, keys, trace[..|trace| - 1]);
      match Ingress(c, keys, Payload(trace[|trace| - 1]))
      case WriteTun(p) => earlier + [p]
      case _ => earlier
  }

  /** One pass of the egress loop: a TUN read error, or no client yet, drops
      the packet before anything is encrypted; otherwise the packet is sealed
      with the IV drawn for this pass and sent to the client. */
  function Egress(c: Primitives, keys: KeyMaterial, client: Option<Addr>,
                  read: Option<seq<byte>>, iv: Option<seq<byte>>): (a: Action)
    requires Sound(c)
    requires iv.Some? ==> |iv.value| == IvLen
    ensures !a.WriteTun?
    ensures read.None? ==> a == Drop(ReadFailed)
    ensures read.Some? && client.None? ==> a == Drop(NoClient)
    ensures a.Send? <==> read.Some? && client.Some? && AesKeySizeOk(|keys.aesKey|) && iv.Some?
    ensures a.Send? ==> a.to == client.value
    ensures a.Send? ==> |a.frame| == |Received(read.value, BufferSize)| + Overhead
  {
    match read
    case None => Drop(ReadFailed)
    case Some(bytes) =>
      var packet := Received(bytes, BufferSize);
      if client.None? then Drop(NoClient)
      else
        match EncryptAndAuthenticate(c, keys, iv, packet)
        case Failure(e) => Drop(SealFailed(e))
        case Success(frame) => Send(frame, client.value)
  }

  /** The server process: the key globals, `clientAddrs` and the two loops'
      buffers. */
  class Server {
    const c: Primitives
    var aesKey: seq<byte>
    var hmacKey: seq<byte>
    var clientAddrs: map<string, Addr>
    const inBuffer: array<byte>
    const outBuffer: array<byte>

    ghost predicate Valid()
      reads this
    {
      && Sound(c)
      && inBuffer.Length == BufferSize
      && outBuffer.Length == BufferSize
      && inBuffer != outBuffer
      && clientAddrs.Keys <= {DefaultKey}
    }

    function Keys(): KeyMaterial
      reads this
    {
      KeyMaterial(aesKey, hmacKey)
    }

    /** Start-up state: the key globals are still nil, `clientAddrs` is the
        empty map made in `main`, and each loop has its own buffer. */
    constructor (c: Primitives)
      requires Sound(c)
      ensures Valid()
      ensures this.c == c && aesKey == [] && hmacKey == [] && clientAddrs == map[]
      ensures fresh(inBuffer) && fresh(outBuffer)
    {
      this.c := c;
      aesKey, hmacKey := [], [];
      clientAddrs := map[];
      inBuffer := new byte[BufferSize];
      outBuffer := new byte[BufferSize];
    }

    /** `deriveKeys`. When it returns false the Go program has called
        `log.Fatalf` and the process is gone; the globals are untouched. */
    method DeriveKeys(psk: seq<byte>) returns (ok: bool)
      requires Valid()
      modifies this`aesKey, this`hmacKey
      ensures Valid()
      ensures ok <==> Codec.DeriveKeys(c, psk).Success?
      ensures ok ==> Keys() == Codec.DeriveKeys(c, psk).value
      ensures !ok ==> Keys() == old(Keys())
    {
      if |psk| != KeyLen {
        return false;
      }
      var masterKey := c.pbkdf2(psk, Pbkdf2Salt, Pbkdf2Iterations, KeyLen * 2);
      aesKey := masterKey[..KeyLen];
      hmacKey := masterKey[KeyLen..];
      ok := true;
    }

    /** The client-tracking step of the ingress loop: store the address on
        the first datagram, overwrite it when its string form differs. */
    method ObserveClient(addr: Addr) returns (ev: PeerEvent)
      requires Valid()
      modifies this`clientAddrs
      ensures Valid()
      ensures clientAddrs == old(clientAddrs)[DefaultKey := addr]
      ensures ev == NewClient <==> DefaultKey !in old(clientAddrs)
      ensures ev == ClientUpdated <==> DefaultKey in old(clientAddrs) && old(clientAddrs)[DefaultKey] != addr
    {
      if DefaultKey !in clientAddrs {
        clientAddrs := clientAddrs[DefaultKey := addr];
        ev := NewClient;
      } else if clientAddrs[DefaultKey] != addr {
        clientAddrs := clientAddrs[DefaultKey := addr];
        ev := ClientUpdated;
      } else {
        ev := ClientUnchanged;
      }
    }

    /** One pass of `handleIncomingPackets`. The client address is recorded
        right after the read, before the length and tag checks. */
    method HandleIncoming(read: Option<Datagram>) returns (a: Action)
      requires Valid()
      modifies this`clientAddrs, inBuffer
      ensures Valid()
      ensures a == Ingress(c, Keys(), Payload(read))
      ensures clientAddrs == AfterReceive(old(clientAddrs), read)
    {
      if read.None? {
        return Drop(ReadFailed);
      }
      var n := ReadInto(inBuffer, read.value.bytes);
      var _ := ObserveClient(read.value.from);
      if n < HmacLen {
        return Drop(BadFrame(TooShort));
      }
      var packet := inBuffer[..n];
      var receivedHmac := packet[..HmacLen];
      var dataWithIv := packet[HmacLen..];
      if !VerifyHmac(c, hmacKey, dataWithIv, receivedHmac) {
        return Drop(BadFrame(AuthenticationFailure));
      }
      var decrypted := Decrypt(c, aesKey, dataWithIv);
      if decrypted.Failure? {
        return Drop(BadFrame(DecryptFailed(decrypted.error)));
      }
      a := WriteTun(decrypted.value);
    }

    /** One pass of `handleOutgoingPackets`; `iv` is what the random source
        yields if this pass draws an IV. */
    method HandleOutgoing(read: Option<seq<byte>>, iv: Option<seq<byte>>) returns (a: Action)
      requires Valid()
      requires iv.Some? ==> |iv.value| == IvLen
      modifies outBuffer
      ensures a == Egress(c, Keys(), Current(clientAddrs), read, iv)
    {
      if read.None? {
        return Drop(ReadFailed);
      }
      var n := ReadInto(outBuffer, read.value);
      var packet := outBuffer[..n];
      if DefaultKey !in clientAddrs {
        return Drop(NoClient);
      }
      var clientAddr := clientAddrs[DefaultKey];
      var sealed := EncryptAndAuthenticate(c, Keys(), iv, packet);
      if sealed.Failure? {
        return Drop(SealFailed(sealed.error));
      }
      a := Send(sealed.value, clientAddr);
    }

    /** The ingress loop over a finite run of reads. */
    method ServeIncoming(trace: seq<Option<Datagram>>) returns (written: seq<seq<byte>>)
      requires Valid()
      modifies this`clientAddrs, inBuffer
      ensures Valid()
      ensures clientAddrs == PeerAfter(old(clientAddrs), trace)
      ensures written == TunWrites(c, Keys(), trace)
    {
      written := [];
      for i := 0 to |trace|
        invariant Valid()
        invariant clientAddrs == PeerAfter(old(clientAddrs), trace[..i])
        invariant written == TunWrites(c, Keys(), trace[..i])
      {
        var a := HandleIncoming(trace[i]);
        assert trace[..i + 1][..i] == trace[..i];
        if a.WriteTun? {
          written := written + [a.packet];
        }
      }
      assert trace[..|trace|] == trace;
    }
  }

  /** The server as shipped never gets past key derivation: its 30-byte
      `PSK` makes `deriveKeys` fatal. */
  lemma ShippedPskAbortsStartup(c: Primitives)
    requires Sound(c)
    ensures |Psk| == 30
    ensures Codec.DeriveKeys(c, Psk) == Failure(30)
  {
  }

  /** The client slot names the sender of the last successful read, whatever
      that datagram contained. */
  lemma {:induction false} PeerIsLastSender(clientAddrs: map<string, Addr>, trace: seq<Option<Datagram>>, i: nat)
    requires i < |trace| && trace[i].Some?
    requires forall j :: i < j < |trace| ==> trace[j].None?
    ensures Current(PeerAfter(clientAddrs, trace)) == Some(trace[i].value.from)
  {
    if i < |trace| - 1 {
      var prefix := trace[..|trace| - 1];
      PeerIsLastSender(clientAddrs, prefix, i);
    }
  }

  /** Without a successful read the client slot keeps its value. */
  lemma {:induction false} NoReadNoPeerChange(clientAddrs: map<string, Addr>, trace: seq<Option<Datagram>>)
    requires forall j :: 0 <= j < |trace| ==> trace[j].None?
    ensures PeerAfter(clientAddrs, trace) == clientAddrs
  {
    if trace != [] {
      NoReadNoPeerChange(clientAddrs, trace[..|trace| - 1]);
    }
  }

  /** Before any datagram, egress drops; after a datagram from `a` and then
      one from `b`, egress sends to `b`. */
  lemma PeerTrackingExample(c: Primitives, keys: KeyMaterial, a: Datagram, b: Datagram,
                            packet: seq<byte>, iv: seq<byte>)
    requires Sound(c)
    requires |iv| == IvLen && AesKeySizeOk(|keys.aesKey|)
    ensures Egress(c, keys, Current(map[]), Some(packet), Some(iv)) == Drop(NoClient)
    ensures Current(PeerAfter(map[], [Some(a)])) == Some(a.from)
    ensures var m := PeerAfter(map[], [Some(a), Some(b)]);
            Egress(c, keys, Current(m), Some(packet), Some(iv)).Send?
            && Egress(c, keys, Current(m), Some(packet), Some(iv)).to == b.from
  {
    PeerIsLastSender(map[], [Some(a)], 0);
    PeerIsLastSender(map[], [Some(a), Some(b)], 1);
  }

  /** Without a client the egress pass is a drop whatever the random source
      would give: nothing is encrypted or sent. */
  lemma NoClientNoSeal(c: Primitives, keys: KeyMaterial, read: Option<seq<byte>>,
                       iv1: Option<seq<byte>>, iv2: Option<seq<byte>>)
    requires Sound(c)
    requires iv1.Some? ==> |iv1.value| == IvLen
    requires iv2.Some? ==> |iv2.value| == IvLen
    ensures Egress(c, keys, None, read, iv1) == Egress(c, keys, None, read, iv2)
    ensures !Egress(c, keys, None, read, iv1).Send?
  {
  }

  /** Once a client is known, the frame sent to it is a sealed frame the
      client's ingress checks accept, carrying the packet read (cut to the
      buffer). */
  lemma EgressFrameOpens(c: Primitives, keys: KeyMaterial, client: Addr, packet: seq<byte>, iv: seq<byte>)
    requires Sound(c)
    requires |iv| == IvLen && AesKeySizeOk(|keys.aesKey|)
    ensures var a := Egress(c, keys, Some(client), Some(packet), Some(iv));
            a.Send? && a.to == client && Open(c, keys, a.frame) == Success(Received(packet, BufferSize))
  {
    SealThenOpen(c, keys, iv, Received(packet, BufferSize));
  }

  /** As written: any datagram, even one that fails every check, moves the
      client slot to its sender, and the next egress pass sends there. */
  lemma SpoofedDatagramRedirectsEgress(c: Primitives, keys: KeyMaterial, clientAddrs: map<string, Addr>,
                                       junk: seq<byte>, attacker: Addr, packet: seq<byte>, iv: seq<byte>)
    requires Sound(c)
    requires |iv| == IvLen && AesKeySizeOk(|keys.aesKey|)
    requires |junk| < HmacLen
    ensures Ingress(c, keys, Some(junk)) == Drop(BadFrame(TooShort))
    ensures var m := AfterReceive(clientAddrs, Some(Datagram(junk, attacker)));
            Egress(c, keys, Current(m), Some(packet), Some(iv)).Send?
            && Egress(c, keys, Current(m), Some(packet), Some(iv)).to == attacker
  {
  }

  /** A datagram whose bytes pass every check of the ingress pass under
      `keys`: long enough, a usable AES key, and a tag that verifies. */
  predicate Authentic(c: Primitives, keys: KeyMaterial, bytes: seq<byte>)
    requires Sound(c)
  {
    var packet := Received(bytes, BufferSize);
    && |packet| >= Overhead
    && AesKeySizeOk(|keys.aesKey|)
    && VerifyHmac(c, keys.hmacKey, packet[HmacLen..], packet[..HmacLen])
  }

  /** Corrected client tracking: record the sender only when its datagram
      passed every ingress check; any other read leaves the map as it was. */
  function GatedAfterReceive(c: Primitives, keys: KeyMaterial, clientAddrs: map<string, Addr>,
                             read: Option<Datagram>): (m: map<string, Addr>)
    requires Sound(c)
    ensures read.Some? && Authentic(c, keys, read.value.bytes) ==> Current(m) == Some(read.value.from)
    ensures !(read.Some? && Authentic(c, keys, read.value.bytes)) ==> m == clientAddrs
  {
    if Ingress(c, keys, Payload(read)).WriteTun? then AfterReceive(clientAddrs, read) else clientAddrs
  }

  /** With the corrected tracking, the client slot moves to an address only
      on a datagram from that address whose tag verifies under the server's
      HMAC key. */
  lemma GatedPeerRequiresAuthenticFrame(c: Primitives, keys: KeyMaterial, clientAddrs: map<string, Addr>,
                                        read: Option<Datagram>)
    requires Sound(c)
    ensures var m := GatedAfterReceive(c, keys, clientAddrs, read);
            m != clientAddrs ==>
              && read.Some? && Current(m) == Some(read.value.from)
              && var packet := Received(read.value.bytes, BufferSize);
              && |packet| >= Overhead
              && VerifyHmac(c, keys.hmacKey, packet[HmacLen..], packet[..HmacLen])
  {
  }

  /** The converse: a frame the client sealed under the shared keys, if it
      arrives whole, moves the client slot to its sender, so the next egress
      pass sends to where the client is now. */
  lemma GatedTrackerRecordsSealedSender(c: Primitives, keys: KeyMaterial, clientAddrs: map<string, Addr>,
                                        iv: seq<byte>, plaintext: seq<byte>, from: Addr,
                                        packet: seq<byte>, iv2: seq<byte>)
    requires Sound(c)
    requires |iv| == IvLen && |iv2| == IvLen && AesKeySizeOk(|keys.aesKey|)
    requires |plaintext| <= MaxPlaintext
    ensures var frame := EncryptAndAuthenticate(c, keys, Some(iv), plaintext).value;
            var m := GatedAfterReceive(c, keys, clientAddrs, Some(Datagram(frame, from)));
            && Current(m) == Some(from)
            && Egress(c, keys, Current(m), Some(packet), Some(iv2)).Send?
            && Egress(c, keys, Current(m), Some(packet), Some(iv2)).to == from
  {
    var frame := EncryptAndAuthenticate(c, keys, Some(iv), plaintext).value;
    SealedFrameFits(c, keys, iv, plaintext);
    SealThenOpen(c, keys, iv, plaintext);
    assert Received(frame, BufferSize) == frame;
  }

  /** With the corrected tracking, the datagram of
      SpoofedDatagramRedirectsEgress leaves the client slot where it was. */
  lemma GatedTrackerIgnoresShortDatagram(c: Primitives, keys: KeyMaterial, clientAddrs: map<string, Addr>,
                                         junk: seq<byte>, attacker: Addr)
    requires Sound(c)
    requires |junk| < HmacLen
    ensures GatedAfterReceive(c, keys, clientAddrs, Some(Datagram(junk, attacker))) == clientAddrs
  {
  }
}
