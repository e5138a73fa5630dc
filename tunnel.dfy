/** The three programs together: their pre-shared keys, and what one
    endpoint's frames become at the other. */
module Tunnel {
  import opened Wrappers
  import opened Crypto
  import opened Codec
  import opened Relay
  import GoClient
  import GoServer
  import PyClient

  /** The three shipped pre-shared keys are pairwise different and only the
      client's has the 32 bytes all three comments claim. */
  lemma ShippedPsksDisagree()
    ensures |GoClient.Psk| == 32 && |GoServer.Psk| == 30 && |PyClient.Psk| == 31
    ensures GoClient.Psk != GoServer.Psk && GoClient.Psk != PyClient.Psk && GoServer.Psk != PyClient.Psk
  {
  }

  /** The key all three programs were meant to share: the client's, the only
      32-byte one, which its comment says must match the server's. */
  const SharedPsk: seq<byte> := GoClient.Psk

  /** With the shared key both Go programs get through key derivation and hold
      the same key material, and the Python script derives the same keys. */
  lemma SharedPskStartsBothEnds(c: Primitives)
    requires Sound(c)
    ensures DeriveKeys(c, SharedPsk).Success?
    ensures var keys := DeriveKeys(c, SharedPsk).value;
            PyClient.DeriveKeys(c, SharedPsk) == (keys.aesKey, keys.hmacKey)
            && AesKeySizeOk(|keys.aesKey|)
  {
    PyClient.DeriveKeysAgreesWithGo(c, SharedPsk);
  }

  /** Client to server: a packet the client reads from its TUN device is, at
      the server, written to the server's TUN device unchanged exactly when it
      is at most MaxPlaintext bytes long. */
  lemma ClientToServer(c: Primitives, server: Addr, from: Addr, packet: seq<byte>, iv: seq<byte>)
    requires Sound(c)
    requires |iv| == IvLen
    ensures var keys := DeriveKeys(c, SharedPsk).value;
            var a := GoClient.Egress(c, keys, server, Some(packet), Some(iv));
            && a.Send? && a.to == server
            && (Ingress(c, keys, GoServer.Payload(Some(GoServer.Datagram(a.frame, from)))) == WriteTun(packet)
                <==> |packet| <= MaxPlaintext)
  {
    SharedPskStartsBothEnds(c);
    var keys := DeriveKeys(c, SharedPsk).value;
    if |packet| <= MaxPlaintext {
      SealedPacketDelivered(c, keys, iv, packet);
    } else {
      var a := GoClient.Egress(c, keys, server, Some(packet), Some(iv));
      var got := Ingress(c, keys, Some(a.frame));
      assert got.WriteTun? ==> |got.packet| <= MaxPlaintext < |packet|;
    }
  }

  /** Server to client: once the server has heard from the client, a packet
      the server reads from its TUN device is sent to that client, and the
      client writes it to its TUN device unchanged exactly when it is at most
      MaxPlaintext bytes long. */
  lemma ServerToClient(c: Primitives, client: GoServer.Datagram, packet: seq<byte>, iv: seq<byte>)
    requires Sound(c)
    requires |iv| == IvLen
    ensures var keys := DeriveKeys(c, SharedPsk).value;
            var peers := GoServer.AfterReceive(map[], Some(client));
            var a := GoServer.Egress(c, keys, GoServer.Current(peers), Some(packet), Some(iv));
            && a.Send? && a.to == client.from
            && (Ingress(c, keys, Some(a.frame)) == WriteTun(packet) <==> |packet| <= MaxPlaintext)
  {
    SharedPskStartsBothEnds(c);
    var keys := DeriveKeys(c, SharedPsk).value;
    if |packet| <= MaxPlaintext {
      SealedPacketDelivered(c, keys, iv, packet);
    } else {
      var peers := GoServer.AfterReceive(map[], Some(client));
      var a := GoServer.Egress(c, keys, GoServer.Current(peers), Some(packet), Some(iv));
      var got := Ingress(c, keys, Some(a.frame));
      assert got.WriteTun? ==> |got.packet| <= MaxPlaintext < |packet|;
    }
  }

  /** Python to server: with the shared key, the datagram `send_vpn_packet`
      sends passes the server's ingress checks and the server writes the
      packet to its TUN device exactly when it is at most MaxPlaintext bytes. */
  lemma PythonFrameAcceptedByServer(c: Primitives, ipPacket: seq<byte>, iv: seq<byte>, from: Addr)
    requires Sound(c)
    requires |iv| == 16
    ensures var (aesKey, hmacKey) := PyClient.DeriveKeys(c, SharedPsk);
            var out := PyClient.SendVpnPacket(c, ipPacket, aesKey, hmacKey, iv);
            var keys := DeriveKeys(c, SharedPsk).value;
            Ingress(c, keys, GoServer.Payload(Some(GoServer.Datagram(out.datagram, from)))) == WriteTun(ipPacket)
            <==> |ipPacket| <= MaxPlaintext
  {
    SharedPskStartsBothEnds(c);
    var keys := DeriveKeys(c, SharedPsk).value;
    PyClient.FrameAgreesWithGo(c, ipPacket, keys.aesKey, keys.hmacKey, iv);
    SealedPacketDelivered(c, keys, iv, ipPacket);
  }

  /** As shipped, the Python script's 31-byte key is accepted by its own
      `derive_keys`, which a Go endpoint would refuse at start-up. */
  lemma PythonPskUnchecked(c: Primitives)
    requires Sound(c)
    ensures |PyClient.Psk| == 31
    ensures |PyClient.DeriveKeys(c, PyClient.Psk).0| == 32
    ensures DeriveKeys(c, PyClient.Psk) == Failure(31)
  {
  }
}
