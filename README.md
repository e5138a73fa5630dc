# CipherWall tunnel: frame protocol and relay steps in Dafny

This project models the core of CipherWall, a point-to-point tunnel.
CipherWall carries IP packets between a TUN device and a UDP socket.
The Go server (`main.go`), the Go client (`client.go`) and the Python
reference sender (`client_example.py`) each implement one side.

The model covers four things:

- **Key derivation** (`deriveKeys`, `derive_keys`). A 32-byte pre-shared key
  is stretched with PBKDF2-HMAC-SHA256 to 64 bytes. The first half becomes
  the AES-256 key and the second half the HMAC key. The Go programs abort
  when the key is not 32 bytes long; the Python script does not check.
- **Frame codec** (`encrypt`, `addHMAC`, `encryptAndAuthenticate`,
  `verifyHMAC`, `decrypt`). A frame is `tag(32) ‖ IV(16) ‖ ciphertext`.
  The tag is HMAC-SHA256 over `IV ‖ ciphertext`. The cipher is AES in
  full-block CFB mode, so the ciphertext is as long as the packet.
  Both Go files define these functions alike (main.go adds only comments, log lines
  and a longer error message); module `Codec` models them once.
- **Client tracking on the server** (`clientAddrs["default"]`). Every
  successful UDP read stores its sender's address. This happens before the
  length and tag checks. The egress loop drops packets until an address is
  known and afterwards sends every frame to it. A hardened server would
  record the address only after the frame authenticates, and the comment at
  main.go:166 points at keying clients by the decrypted packet. The code
  records it from any datagram, and the model follows the code (see
  "## Findings").
- **One pass of each relay loop.** Each pass reads into a reused 1500-byte
  buffer and ends in one action: drop, write to TUN, or send a frame to an
  address. Module `Relay` holds what both Go programs share.
  `GoClient.Client` and `GoServer.Server` are classes holding the key
  globals, the buffers and (on the server) `clientAddrs`. Their step
  methods are proved equal to the pure step functions `Relay.Ingress`,
  `GoClient.Egress` and `GoServer.Egress`.

The cryptographic primitives are parameters. A `Crypto.Primitives` value
holds one function for each of PBKDF2, HMAC-SHA256, CFB encryption and CFB
decryption. `Crypto.Sound` states the only facts the model assumes:

- each primitive returns an output of the expected length;
- CFB decryption under the same key and IV undoes CFB encryption.

Every lemma holds for every bundle that satisfies `Sound`.
`Crypto.ConsistencyWitness` exhibits one such bundle, which shows the
assumptions do not contradict each other.

Random IVs and the bytes delivered by the socket or the TUN device are
inputs to the step functions. An input of `None` stands for a failed read
or a failed random source.

A UDP address is identified by its `String()` form (`Relay.Addr`).
The server compares addresses by that form.

A consequence of the fixed 1500-byte buffer is proved in
`Relay.SealedPacketDelivered`, `Tunnel.ClientToServer` and
`Tunnel.ServerToClient`. A packet reaches the far TUN device unchanged if
and only if it has at most 1452 bytes (`Relay.MaxPlaintext`). A packet of
1453 to 1500 bytes is sealed whole, but the receiving read keeps only the
first 1500 bytes of its frame. A longer one is already cut to 1500 bytes by
the sender's own TUN read.

## Model

| member | source | states |
|---|---|---|
| `Codec.DeriveKeys` | client.go:130-138 | fails, reporting the length, iff the key is not 32 bytes; on success the AES key and the HMAC key are 32 bytes each and together are the 64-byte PBKDF2 output, AES key first |
| `Codec.Encrypt` | client.go:400-420 | a key length AES rejects fails with a cipher error before the IV is drawn; a failed random source fails next; otherwise the result is the 16-byte IV followed by the CFB ciphertext, `16 + len(plaintext)` bytes in all |
| `Codec.Decrypt` | client.go:379-397 | fails with "too short" iff fewer than 16 bytes are given, then only on a bad key length; on success the result is the CFB decryption of the bytes after the first 16 under those 16 as IV, 16 bytes shorter than the input |
| `Codec.VerifyHmac` | client.go:371-376 | true iff the received tag equals the 32-byte tag `addHMAC` would put in front of the data; a tag of any other length never verifies |
| `Codec.AddHmac` | client.go:423-433 | the result is the 32-byte HMAC of the data followed by the data unchanged |
| `Codec.EncryptAndAuthenticate` | client.go:436-442 | succeeds iff `encrypt` does and returns its error otherwise; the frame is `len(plaintext) + 48` bytes, its bytes after the tag are exactly the `encrypt` output, and its tag verifies |
| `Codec.Open` | client.go:302-324 | the ingress checks in source order: under 32 bytes is "too short", a tag mismatch is an authentication failure; success iff the frame has at least 48 bytes, the key size is valid and the tag verifies, and then the result is the CFB decryption of the bytes after byte 48 under the IV in bytes 32 to 47 |
| `Codec.DecryptInvertsEncrypt` | client.go:379-420 | `decrypt` returns the original plaintext for any `encrypt` output under the same key |
| `Codec.SealThenOpen` | client.go:371-442 | round trip: a frame from `encryptAndAuthenticate` passes every ingress check under the same keys and yields the plaintext |
| `Codec.ForeignTagRejected` | client.go:371-376 | a sealed frame whose body is replaced, or which is opened under another HMAC key, fails authentication whenever the tag recomputed at the receiver differs from the one carried |
| `Codec.AuthenticButShortFrameRejected` | main.go:189-199 | a 32 to 47 byte frame with a valid tag is still dropped, by `decrypt`'s IV-length check |
| `Relay.Received` | main.go:154-160 | a read into the 1500-byte buffer keeps a prefix of at most 1500 bytes, and keeps everything iff the datagram fits |
| `Relay.ReadInto` | client.go:291-296 | the read overwrites the first `n` buffer bytes with that prefix and leaves the rest of the reused buffer as it was |
| `Relay.Ingress` | client.go:295-331 | one ingress pass never sends; a read error drops; it writes to TUN iff the bytes read are at least 48, the key size is valid and the tag verifies; what it writes is the decryption of the bytes after the IV and is at most 1452 bytes |
| `Relay.SealedFrameFits` | main.go:154-160 | a sealed frame fits the 1500-byte receive buffer whole iff its plaintext is at most 1452 bytes |
| `Relay.SealedPacketDelivered` | client.go:291-331 | the ingress pass under the sender's keys writes exactly the sealed packet iff it has at most 1452 bytes |
| `GoServer.AfterReceive` | main.go:160-174 | after a successful read the "default" slot holds the sender's address, and no other key is added; a failed read changes nothing |
| `GoServer.PeerAfter` | main.go:158-174 | over any run of reads the map only gains the "default" key and never loses a key |
| `GoServer.PeerIsLastSender` | main.go:168-174 | after a run of reads the "default" slot holds the sender of the last successful read, whatever that datagram contained |
| `GoServer.NoReadNoPeerChange` | main.go:160-164 | a run of failed reads leaves `clientAddrs` unchanged |
| `GoServer.Egress` | main.go:307-336 | a TUN read error drops; with no client the pass drops before anything is encrypted; it sends iff a client is known, the key size is valid and an IV was drawn, to exactly that client, a frame 48 bytes longer than the packet read |
| `GoServer.NoClientNoSeal` | main.go:318-322 | with no client the pass never sends and its outcome does not depend on the random source, so neither encryption nor `WriteToUDP` happens |
| `GoServer.EgressFrameOpens` | main.go:325-332 | with a known client the pass sends to it a frame that the peer's ingress checks open to the packet read |
| `GoServer.PeerTrackingExample` | main.go:318-332 | egress drops before any datagram; after datagrams from A and then B, egress sends to B |
| `GoServer.ShippedPskAbortsStartup` | main.go:25 | the shipped server key has 30 bytes, so `deriveKeys` is fatal |
| `GoServer.SpoofedDatagramRedirectsEgress` | main.go:166-180 | a datagram too short to be a frame is dropped, yet it moves the client slot to its sender, and the next egress pass sends there |
| `GoServer.GatedAfterReceive` | main.go:166-174 | corrected tracking: a datagram that passes every ingress check moves the "default" slot to its sender; any other read leaves the map unchanged |
| `GoServer.GatedPeerRequiresAuthenticFrame` | main.go:166-174 | corrected tracking changes the slot only on a datagram of at least 48 bytes whose tag verifies, and then to its sender |
| `GoServer.GatedTrackerRecordsSealedSender` | main.go:166-174 | corrected tracking still follows a roaming client: a frame it sealed under the shared keys that arrives whole moves the slot to its sender, and the next egress pass sends there |
| `GoServer.GatedTrackerIgnoresShortDatagram` | main.go:166-180 | corrected tracking: the too-short datagram that redirects egress as written leaves the map unchanged |
| `GoServer.Server.constructor` | main.go:38-44 | start-up state: nil key globals, an empty `clientAddrs`, and two separate 1500-byte buffers |
| `GoServer.Server.DeriveKeys` | main.go:107-122 | succeeds iff the key is 32 bytes, and then sets the globals to `Codec.DeriveKeys`'s keys; otherwise the globals are unchanged and the process exits |
| `GoServer.Server.ObserveClient` | main.go:168-174 | stores the address in the "default" slot and reports a new client iff the slot was empty, an update iff it held a different address |
| `GoServer.Server.HandleIncoming` | main.go:158-210 | one ingress pass equals `Relay.Ingress` on the bytes read, and `clientAddrs` becomes `AfterReceive` of the old map, keeping only the "default" key |
| `GoServer.Server.HandleOutgoing` | main.go:307-340 | one egress pass equals `GoServer.Egress` for the current client |
| `GoServer.Server.ServeIncoming` | main.go:153-211 | the ingress loop over a finite run of reads leaves `clientAddrs` at `PeerAfter` and writes to TUN exactly the packets the passes accept, in order |
| `GoClient.Egress` | client.go:338-368 | a TUN read error drops; it sends iff the key size is valid and an IV was drawn, always to the server, a frame 48 bytes longer than the packet read |
| `GoClient.Client.constructor` | client.go:41-46 | start-up state: nil key globals and two separate 1500-byte buffers |
| `GoClient.Client.DeriveKeys` | client.go:129-138 | succeeds iff the key is 32 bytes, and then sets the globals to `Codec.DeriveKeys`'s keys; otherwise nothing changes and the process exits |
| `GoClient.Client.HandleIncoming` | client.go:295-334 | one ingress pass equals `Relay.Ingress` on the bytes read |
| `GoClient.Client.HandleOutgoing` | client.go:343-367 | one egress pass equals `GoClient.Egress` |
| `GoClient.ShippedPskDerives` | client.go:29 | the shipped client key has 32 bytes, so `deriveKeys` succeeds |
| `PyClient.DeriveKeys` | client_example.py:18-23 | any key, whatever its length, yields two 32-byte keys that together are the 64-byte PBKDF2 output |
| `PyClient.EncryptPacket` | client_example.py:25-30 | the result is the 16-byte IV followed by the CFB ciphertext, as long as the plaintext |
| `PyClient.AddHmac` | client_example.py:32-35 | the result is the 32-byte HMAC-SHA256 digest of the data followed by the data unchanged |
| `PyClient.SendVpnPacket` | client_example.py:37-44 | the datagram goes to 127.0.0.1:1194 and is 48 bytes longer than the packet |
| `PyClient.DeriveKeysAgreesWithGo` | client_example.py:15-23 | for a 32-byte key the script derives the same keys as Go's `deriveKeys` (same salt, iterations and output length); for any other length Go fails where the script does not |
| `PyClient.FrameAgreesWithGo` | client_example.py:37-42 | the script's datagram is byte for byte the frame Go's `encryptAndAuthenticate` builds from the same keys and IV |
| `Tunnel.ShippedPsksDisagree` | client_example.py:12 | the three shipped keys have 32, 30 and 31 bytes and are pairwise different |
| `Tunnel.SharedPskStartsBothEnds` | client.go:29 | with the client's 32-byte key both Go programs pass key derivation and the Python script derives the same keys |
| `Tunnel.ClientToServer` | client.go:343-360 | the client sends to the server a frame that the server writes to its TUN device unchanged iff the packet is at most 1452 bytes |
| `Tunnel.ServerToClient` | main.go:318-332 | after one datagram from the client, the server sends each packet to that client, which writes it unchanged iff it is at most 1452 bytes |
| `Tunnel.PythonFrameAcceptedByServer` | client_example.py:37-44 | with the shared key the server writes the script's packet to TUN unchanged iff it is at most 1452 bytes |
| `Tunnel.PythonPskUnchecked` | client_example.py:12 | the script's 31-byte key passes its own `derive_keys`, but a Go endpoint refuses it |

## Left out

- Tunnel and routing set-up (`setupTUN`, `setupRouting`, `cleanupRouting`, `executeCommand`): these run OS commands and have no protocol logic.
- `main` in both Go files and the Python `__main__` block: flag parsing, socket creation, signal handling and start-up order.
- The internals of PBKDF2, HMAC-SHA256, AES and CFB: they are library calls. Only the facts in `Crypto.Sound` are assumed.
- Tamper detection and key mismatch as unconditional facts: they rest on HMAC being unforgeable, which cannot be stated over abstract primitives. `Codec.ForeignTagRejected` gives the conditional form.
- IV freshness: the random source is an input, and uniqueness across calls cannot be proved.
- Concurrency: the two loops and their unsynchronised access to `clientAddrs` are modelled as separate sequential steps on shared state.
- Logging, and the outcome of `iface.Write`, `conn.Write` and `conn.WriteToUDP`: in the Go loops a failed write only logs and the loop continues, so the modelled action is what the pass attempts.
- The outcome of `sock.sendto` in the Python script: an `OSError` from it propagates out of `send_vpn_packet` and ends the script; the model stops at the datagram and its destination.
- The unbounded `for` loops: each is one pass, and the server's ingress loop is also modelled over a finite run of reads (`ServeIncoming`).
- Replay protection: the source has none.
- `Codec.VerifyHmac`: does not model the constant running time of `hmac.Equal`, only its result.
- `Relay.Received`: models Linux behaviour, where a read into a smaller buffer silently drops the rest of a datagram or packet. On other systems the read may return an error instead.
- `Relay.Addr`: a `*net.UDPAddr` is represented by its `String()` form. When the string forms match the server keeps the old pointer; two such pointers address the same endpoint.
- `PyClient.EncryptPacket`: requires an AES key of 16, 24 or 32 bytes instead of modelling the `ValueError` PyCryptodome raises for other lengths. The script never handles that error, and its own keys are always 32 bytes.
- `PyClient.SendVpnPacket`: carries the same AES key-size requirement as `EncryptPacket`, for the same reason.
- `PyClient.FrameAgreesWithGo`: carries the same AES key-size requirement, so it compares the two frames only for key sizes where the script does not raise.

## Findings

| source | as written | input that shows it | evidently intended | confidence | as-written member | corrected member |
|---|---|---|---|---|---|---|
| main.go:25 | the server `PSK` literal has 30 bytes, so `deriveKeys` calls `log.Fatalf` at start-up | the shipped constant | a 32-byte key equal to the client's, as both comments say | high, not executed | `GoServer.ShippedPskAbortsStartup` | `Tunnel.SharedPskStartsBothEnds` |
| client_example.py:12 | the script's `PSK` has 31 bytes and `derive_keys` never checks it, so it derives keys that no Go endpoint can hold | the shipped constant | the same 32-byte key as the Go programs | high, not executed | `Tunnel.PythonPskUnchecked` | `Tunnel.PythonFrameAcceptedByServer` |
| main.go:168-174 | the client slot is set from every datagram before the length and tag checks | a 0-byte datagram from any address | record the sender only after its frame authenticates | medium, not executed | `GoServer.SpoofedDatagramRedirectsEgress` | `GoServer.GatedAfterReceive` |
