/** Pairwise channel keys and the hello exchange (network/src/channel_auth.rs, crypto/src/lib.rs). */
module ChannelAuth {
  import opened Seqs
  import opened Words
  import Codec

  /** The two hash functions keys are derived with; their internals are not modelled. */
  datatype Hashes = Hashes(derive: Bytes -> Bytes, keyed: (Bytes, Bytes) -> Bytes)

  /** "VCA1" */
  const HELLO_MAGIC: Bytes := [0x56, 0x43, 0x41, 0x31]

  const SALT_LEN: nat := 16

  const HELLO_LEN: nat := 21

  datatype Error = OutsideCommittee | BadHello | WrongPeer | OwnIndex

  datatype Hello = Hello(index: Byte, salt: Bytes)

  /** The static key of an unordered pair of committee members. */
  function RootKey(h: Hashes, seed: Bytes, i: Byte, j: Byte): Bytes {
    h.derive(seed + [if i < j then i else j, if i < j then j else i])
  }

  function SessionKey(h: Hashes, root: Bytes, dialerSalt: Bytes, listenerSalt: Bytes): Bytes {
    h.keyed(root, dialerSalt + listenerSalt)
  }

  datatype ChannelAuth = ChannelAuth(myIndex: Byte, roots: seq<Bytes>)

  function New(h: Hashes, seed: Bytes, myIndex: Byte, committeeSize: nat): ChannelAuth {
    ChannelAuth(myIndex, seq(committeeSize, peer requires 0 <= peer < committeeSize => RootKey(h, seed, myIndex, peer % 256)))
  }

  function HelloBytes(index: Byte, salt: Bytes): Bytes {
    HELLO_MAGIC + [index] + salt
  }

  function ParseHello(bytes: Bytes): Result<Hello, Error>
    requires |bytes| == HELLO_LEN
  {
    if bytes[..4] != HELLO_MAGIC then Err(BadHello) else Ok(Hello(bytes[4], bytes[5..]))
  }

  /** The dialer's side: `expected` is the index its own address map gives for the peer. */
  function HandshakeDialer(h: Hashes, auth: ChannelAuth, expected: Byte, salt: Bytes, received: Bytes): Result<Bytes, Error>
    requires |received| == HELLO_LEN
  {
    if expected >= |auth.roots| then Err(OutsideCommittee)
    else match ParseHello(received)
      case Err(e) => Err(e)
      case Ok(peer) =>
        if peer.index != expected then Err(WrongPeer)
        else Ok(SessionKey(h, auth.roots[expected], salt, peer.salt))
  }

  /** The listener's side: the claimed index selects the key. */
  function HandshakeListener(h: Hashes, auth: ChannelAuth, salt: Bytes, received: Bytes): Result<(Byte, Bytes), Error>
    requires |received| == HELLO_LEN
  {
    match ParseHello(received)
    case Err(e) => Err(e)
    case Ok(peer) =>
      if peer.index == auth.myIndex then Err(OwnIndex)
      else if peer.index >= |auth.roots| then Err(OutsideCommittee)
      else Ok((peer.index, SessionKey(h, auth.roots[peer.index], peer.salt, salt)))
  }

  lemma HelloRoundTrip(index: Byte, salt: Bytes)
    requires |salt| == SALT_LEN
    ensures |HelloBytes(index, salt)| == HELLO_LEN && ParseHello(HelloBytes(index, salt)) == Ok(Hello(index, salt))
  {
    var b := HelloBytes(index, salt);
    assert b[..4] == HELLO_MAGIC && b[5..] == salt;
  }

  /** After unmodified hellos between members `i` (dialer, expecting `expected`) and `j` (listener)
      of one committee: each side succeeds exactly when its own checks allow it, and when both do
      they hold the same key and the listener names the dialer. */
  lemma HandshakeAgrees(h: Hashes, seed: Bytes, n: nat, i: Byte, j: Byte, expected: Byte, dialerSalt: Bytes, listenerSalt: Bytes)
    requires |dialerSalt| == SALT_LEN && |listenerSalt| == SALT_LEN
    ensures |HelloBytes(i, dialerSalt)| == HELLO_LEN && |HelloBytes(j, listenerSalt)| == HELLO_LEN
    ensures var dialer := HandshakeDialer(h, New(h, seed, i, n), expected, dialerSalt, HelloBytes(j, listenerSalt));
      var listener := HandshakeListener(h, New(h, seed, j, n), listenerSalt, HelloBytes(i, dialerSalt));
      && (dialer.Ok? <==> expected == j && j < n)
      && (listener.Ok? <==> i != j && i < n)
      && (dialer.Ok? && listener.Ok? ==> listener.value == (i, dialer.value))
  {
    HelloRoundTrip(i, dialerSalt);
    HelloRoundTrip(j, listenerSalt);
  }

  /** The codec either end builds from the handshake's key. */
  function SessionCodec(key: Bytes, role: Codec.Role, limit: nat): Codec.State {
    Codec.State(Some(Codec.Session(key, role, 0, 0)), limit)
  }

  /** Handshake and stream together: when both ends accept, any payloads within the limit that
      either end sends, cut into any chunks, arrive at the other end as exactly that list. */
  lemma AuthenticatedRoundTrip(h: Hashes, mac: Codec.Mac, seed: Bytes, n: nat, i: Byte, j: Byte,
                               dialerSalt: Bytes, listenerSalt: Bytes, limit: nat, from: Codec.Role,
                               payloads: seq<Bytes>, chunks: seq<Bytes>)
    requires |dialerSalt| == SALT_LEN && |listenerSalt| == SALT_LEN && limit + Codec.TAG_LEN < U32
    requires i != j && i < n && j < n && forall p :: p in payloads ==> |p| <= limit
    ensures |HelloBytes(i, dialerSalt)| == HELLO_LEN && |HelloBytes(j, listenerSalt)| == HELLO_LEN
    ensures var dialer := HandshakeDialer(h, New(h, seed, i, n), j, dialerSalt, HelloBytes(j, listenerSalt));
      var listener := HandshakeListener(h, New(h, seed, j, n), listenerSalt, HelloBytes(i, dialerSalt));
      && dialer.Ok? && listener.Ok?
      && var d, l := SessionCodec(dialer.value, Codec.Dialer, limit), SessionCodec(listener.value.1, Codec.Listener, limit);
         var writer, reader := if from.Dialer? then d else l, if from.Dialer? then l else d;
         Transmits(mac, chunks, writer, payloads) ==>
           Codec.FeedAll(mac, Codec.DecodeAll(mac, reader, []), chunks)
             == Codec.Drained(payloads, Codec.AdvanceBy(reader, |payloads|), Some([]))
  {
    HandshakeAgrees(h, seed, n, i, j, j, dialerSalt, listenerSalt);
    var key := HandshakeDialer(h, New(h, seed, i, n), j, dialerSalt, HelloBytes(j, listenerSalt)).value;
    var d, l := SessionCodec(key, Codec.Dialer, limit), SessionCodec(key, Codec.Listener, limit);
    var writer, reader := if from.Dialer? then d else l, if from.Dialer? then l else d;
    assert Codec.Paired(writer, reader);
    if Transmits(mac, chunks, writer, payloads) {
      Codec.ChunkedRoundTrip(mac, writer, reader, payloads, chunks);
    }
  }

  /** The chunks are some cutting of the bytes the writer puts on the wire. */
  predicate Transmits(mac: Codec.Mac, chunks: seq<Bytes>, writer: Codec.State, payloads: seq<Bytes>) {
    Codec.Joined(chunks) == Codec.Stream(mac, writer, payloads)
  }
}
