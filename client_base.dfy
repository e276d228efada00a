/** FStdbClientBase: the connection's worker. Raw WebSocket frames are
  * queued as they arrive, turned into server messages (the first byte
  * dropped, the rest inflated or passed through according to the
  * configured compression, then deserialized) and queued for the game
  * thread; queued client messages are serialized and sent in order. The
  * game thread's FrameTick then handles each processed message.
  *
  * The three thread-safe queues are sequences and one pass of the worker
  * loop is one method. The socket is reduced to ghost logs: the upgrade
  * requests made, the frames sent and the close codes given. */
module ClientBase {
  import opened Wrappers
  import opened Bytes
  import opened Codec
  import Hex
  import ByteUtils
  import Identities
  import ServerMessages
  import ClientMessages
  import BinaryReaders
  import BinaryWriters

  /** MAX_MESSAGE_SIZE: 64 MiB. */
  const MaxMessageSize: nat := 0x400_0000

  /** The close code an over-size frame gets. */
  const TooBigCloseCode: int := 1013

  /** The code IWebSocket::Close sends when given none. */
  const NormalCloseCode: int := 1000

  /** EStdbCompression, a uint8 enumeration: None is 0 and Gzip is 1; a
    * configured mode may hold any other byte. */
  type Compression = byte

  const NoCompression: Compression := 0
  const Gzip: Compression := 1

  /** CompressionToString: the name sent in the URL; every mode other
    * than Gzip is sent as "None". */
  function CompressionToString(c: Compression): (s: string)
    ensures s == "Gzip" <==> c == Gzip
    ensures s == "None" <==> c != Gzip
  {
    if c == NoCompression then "None"
    else if c == Gzip then "Gzip"
    else "None"
  }

  // ---------------------------------------------------------------------
  // The connection id

  /** Printed hex text uses only the lowercase digits when asked to. */
  lemma PrintIsLowercase(bs: seq<byte>)
    ensures forall i :: 0 <= i < |Hex.Print(bs, false)| ==> Hex.Print(bs, false)[i] in "0123456789abcdef"
  {
    var s := Hex.Print(bs, false);
    forall i | 0 <= i < |s|
      ensures s[i] in "0123456789abcdef"
    {
      var j := i / 2;
      Hex.PrintAt(bs, false, j);
      assert i == 2 * j || i == 2 * j + 1;
    }
  }

  /** GenerateRandomConnectionId, given its sixteen random bytes: each
    * byte as two lowercase digits (`%02x`), first byte first. The text
    * is 32 characters long and HexStringToBytes gives the bytes back. */
  method GenerateConnectionIdHex(bytes: seq<byte>) returns (hex: string)
    requires |bytes| == 16
    ensures hex == Hex.Print(bytes, false)
    ensures |hex| == 32
    ensures forall i :: 0 <= i < |hex| ==> hex[i] in "0123456789abcdef"
    ensures ByteUtils.HexToBytes(hex) == bytes
  {
    hex := "";
    for i := 0 to 16
      invariant hex == Hex.Print(bytes[..i], false)
    {
      Hex.PrintConcat(bytes[..i], [bytes[i]], false);
      assert bytes[..i + 1] == bytes[..i] + [bytes[i]];
      hex := hex + Hex.Pair(bytes[i], false);
    }
    assert bytes[..16] == bytes;
    PrintIsLowercase(bytes);
    ByteUtils.HexToBytesOfPrinted(bytes, false);
  }

  // ---------------------------------------------------------------------
  // The upgrade request

  /** The subscribe URL ConnectWebSocket opens. */
  function Url(host: string, nameOrAddress: string, connectionIdHex: string, mode: Compression, light: bool): (url: string)
    ensures |url| >= 4
  {
    host + "/v1/database/" + nameOrAddress + "/subscribe?connection_id=" + connectionIdHex
      + "&compression=" + CompressionToString(mode)
      + (if light then "&light=true" else "")
  }

  /** The URL ends with "&light=true" exactly in light mode, and otherwise
    * with the compression name, which is Gzip exactly for the Gzip mode. */
  lemma UrlFlags(host: string, nameOrAddress: string, connectionIdHex: string, mode: Compression, light: bool)
    ensures var url := Url(host, nameOrAddress, connectionIdHex, mode, light);
      light <==> |url| >= 11 && url[|url| - 11..] == "&light=true"
    ensures var url := Url(host, nameOrAddress, connectionIdHex, mode, false);
      url[|url| - 4..] == "Gzip" <==> mode == Gzip
  {
    var front := host + "/v1/database/" + nameOrAddress + "/subscribe?connection_id=" + connectionIdHex
      + "&compression=";
    var name := CompressionToString(mode);
    var plain := Url(host, nameOrAddress, connectionIdHex, mode, false);
    assert plain == front + name;
    assert plain[|plain| - 4..] == name;
    var url := Url(host, nameOrAddress, connectionIdHex, mode, light);
    if light {
      assert url == plain + "&light=true";
      assert url[|url| - 11..] == "&light=true";
    } else if |url| >= 11 {
      assert url[|url| - 11..][7..] == name;
      assert "&light=true"[7..] == "true";
    }
  }

  /** The upgrade headers: a bearer Authorization header exactly when a
    * token was given, and nothing else. */
  function UpgradeHeaders(authToken: string): (h: map<string, string>)
    ensures "Authorization" in h <==> authToken != ""
    ensures authToken != "" ==> h["Authorization"] == "Bearer " + authToken
    ensures forall k :: k in h ==> k == "Authorization"
  {
    if authToken != "" then map["Authorization" := "Bearer " + authToken] else map[]
  }

  /** An upgrade request as CreateWebSocket receives it. */
  datatype Request = Request(url: string, protocol: string, headers: map<string, string>)

  /** How the handshake ends: OnConnected, OnConnectionError with its
    * text, or no event within CONNECT_TIMEOUT_S. */
  datatype Handshake = Connected | ConnectionError(error: string) | TimedOut

  /** What WS holds: no socket, or a socket that is connected or not. */
  datatype Socket = NoSocket | Open(connected: bool)

  const CreateFailedText: string := "Failed to create WebSocket"
  const TimedOutText: string := "WebSocket connect timed out"

  // ---------------------------------------------------------------------
  // Frames

  /** A queued frame (FUnprocessedMessage): its bytes and its arrival
    * time in FDateTime ticks. */
  datatype RawFrame = RawFrame(bytes: seq<byte>, timestamp: int)

  /** What DecompressAndDeserialize leaves in its out-parameter: a
    * deserialized message, or the message the worker made before the
    * call, value-initialised (type InitialSubscription over a default
    * identity-token payload), when the frame gave nothing to read. */
  datatype Processed = Decoded(message: ServerMessages.ServerMessage) | Blank

  /** The buffer the deserializer reads: the bytes after the frame's first
    * byte, inflated when the configured mode is Gzip and passed through
    * for every other mode. `inflate` stands for the engine's zlib
    * inflation and gives no bytes when it fails. */
  function WorkingBuffer(mode: Compression, inflate: seq<byte> -> seq<byte>, frame: seq<byte>): seq<byte>
    requires |frame| >= 1
  {
    if mode == Gzip then inflate(frame[1..]) else frame[1..]
  }

  /** Frames the deserializer can read without running off the end of the
    * buffer (FBinaryReader's bounds check): too short to give a buffer,
    * or a buffer that starts with a whole message. */
  predicate Readable(mode: Compression, inflate: seq<byte> -> seq<byte>, frame: seq<byte>) {
    |frame| < 1 || |WorkingBuffer(mode, inflate, frame)| == 0
    || ServerMessages.DeserializeServer(WorkingBuffer(mode, inflate, frame), 0).Some?
  }

  /** The out-parameter after DecompressAndDeserialize: untouched for an
    * empty frame or an empty buffer, otherwise the message at the start of
    * the buffer. */
  function DecodeFrame(mode: Compression, inflate: seq<byte> -> seq<byte>, frame: seq<byte>, out: Processed): Processed
    requires Readable(mode, inflate, frame)
  {
    if |frame| < 1 then out
    else
      var w := WorkingBuffer(mode, inflate, frame);
      if |w| == 0 then out else Decoded(ServerMessages.DeserializeServer(w, 0).value.value)
  }

  /** An empty frame, or a frame holding only its first byte when nothing
    * is inflated, leaves the out-parameter as it was. */
  lemma ShortFrameLeavesMessage(mode: Compression, inflate: seq<byte> -> seq<byte>, frame: seq<byte>, out: Processed)
    requires |frame| == 0 || (|frame| == 1 && mode != Gzip)
    ensures Readable(mode, inflate, frame)
    ensures DecodeFrame(mode, inflate, frame, out) == out
  {
    if |frame| == 1 {
      assert WorkingBuffer(mode, inflate, frame) == [];
    }
  }

  /** The first byte is never consulted: two frames that differ only there
    * decode alike, whatever the mode. */
  lemma FirstByteIsIgnored(mode: Compression, inflate: seq<byte> -> seq<byte>, a: byte, b: byte, rest: seq<byte>, out: Processed)
    requires Readable(mode, inflate, [a] + rest)
    ensures Readable(mode, inflate, [b] + rest)
    ensures DecodeFrame(mode, inflate, [a] + rest, out) == DecodeFrame(mode, inflate, [b] + rest, out)
  {
    assert ([a] + rest)[1..] == rest;
    assert ([b] + rest)[1..] == rest;
  }

  /** Outside the Gzip mode, any first byte followed by a message the
    * server sent decodes to that message. */
  lemma PassThroughRoundTrip(mode: Compression, inflate: seq<byte> -> seq<byte>, first: byte, m: ServerMessages.ServerMessage, out: Processed)
    requires mode != Gzip && ServerMessages.WireServerMessage(m)
    ensures Readable(mode, inflate, [first] + ServerMessages.EncodeServerMessage(m))
    ensures DecodeFrame(mode, inflate, [first] + ServerMessages.EncodeServerMessage(m), out) == Decoded(m)
  {
    var e := ServerMessages.EncodeServerMessage(m);
    assert ([first] + e)[1..] == e;
    assert At(e, 0, e) by { assert e[0..|e|] == e; }
    ServerMessages.ServerMessageRoundTrip(m, e, 0, |e|);
  }

  /** In the Gzip mode, a frame whose rest inflates to a message the
    * server sent decodes to that message. */
  lemma InflatedRoundTrip(inflate: seq<byte> -> seq<byte>, frame: seq<byte>, m: ServerMessages.ServerMessage, out: Processed)
    requires |frame| >= 1 && ServerMessages.WireServerMessage(m)
    requires inflate(frame[1..]) == ServerMessages.EncodeServerMessage(m)
    ensures Readable(Gzip, inflate, frame)
    ensures DecodeFrame(Gzip, inflate, frame, out) == Decoded(m)
  {
    var e := ServerMessages.EncodeServerMessage(m);
    assert At(e, 0, e) by { assert e[0..|e|] == e; }
    ServerMessages.ServerMessageRoundTrip(m, e, 0, |e|);
  }

  /** The messages one worker pass queues for a run of frames, each made
    * blank and then filled by its own frame. */
  function DecodeFrames(mode: Compression, inflate: seq<byte> -> seq<byte>, frames: seq<RawFrame>): (ms: seq<Processed>)
    requires forall i :: 0 <= i < |frames| ==> Readable(mode, inflate, frames[i].bytes)
    ensures |ms| == |frames|
  {
    if frames == [] then []
    else [DecodeFrame(mode, inflate, frames[0].bytes, Blank)] + DecodeFrames(mode, inflate, frames[1..])
  }

  /** The i-th message queued comes from the i-th frame: the order of
    * arrival is kept. */
  lemma {:induction false} DecodeFramesAt(mode: Compression, inflate: seq<byte> -> seq<byte>, frames: seq<RawFrame>, i: nat)
    requires forall j :: 0 <= j < |frames| ==> Readable(mode, inflate, frames[j].bytes)
    requires i < |frames|
    ensures DecodeFrames(mode, inflate, frames)[i] == DecodeFrame(mode, inflate, frames[i].bytes, Blank)
  {
    if i > 0 {
      DecodeFramesAt(mode, inflate, frames[1..], i - 1);
    }
  }

  /** Every message of a queue can be serialized. */
  predicate AllWritable(ms: seq<ClientMessages.ClientMessage>) {
    ms == [] || (ClientMessages.Writable(ms[0]) && AllWritable(ms[1..]))
  }

  /** The frames SendClientMessage hands to the socket for a run of
    * messages, one per message. */
  function EncodeAll(ms: seq<ClientMessages.ClientMessage>): (frames: seq<seq<byte>>)
    ensures |frames| == |ms|
  {
    if ms == [] then [] else [ClientMessages.EncodeClientMessage(ms[0])] + EncodeAll(ms[1..])
  }

  /** Sending one more message sends one more frame, last. */
  lemma {:induction false} EncodeAllSnoc(ms: seq<ClientMessages.ClientMessage>, m: ClientMessages.ClientMessage)
    ensures EncodeAll(ms + [m]) == EncodeAll(ms) + [ClientMessages.EncodeClientMessage(m)]
  {
    if ms != [] {
      assert (ms + [m])[1..] == ms[1..] + [m];
      EncodeAllSnoc(ms[1..], m);
    } else {
      assert ms + [m] == [m];
    }
  }

  /** The i-th frame sent is the i-th message queued. */
  lemma {:induction false} EncodeAllAt(ms: seq<ClientMessages.ClientMessage>, i: nat)
    requires i < |ms|
    ensures EncodeAll(ms)[i] == ClientMessages.EncodeClientMessage(ms[i])
  {
    if i > 0 {
      EncodeAllAt(ms[1..], i - 1);
    }
  }

  /** Every frame sent reads back, at the server, as the message queued. */
  lemma SentFramesReadBack(ms: seq<ClientMessages.ClientMessage>)
    requires forall i :: 0 <= i < |ms| ==> ClientMessages.WellFormed(ms[i]) && ClientMessages.Encodable(ms[i])
    ensures forall i :: 0 <= i < |ms| ==>
      ClientMessages.DeserializeClient(EncodeAll(ms)[i], 0).Some? && ClientMessages.DeserializeClient(EncodeAll(ms)[i], 0).value.value == ms[i]
  {
    forall i | 0 <= i < |ms|
      ensures ClientMessages.DeserializeClient(EncodeAll(ms)[i], 0).Some? && ClientMessages.DeserializeClient(EncodeAll(ms)[i], 0).value.value == ms[i]
    {
      EncodeAllAt(ms, i);
      var e := ClientMessages.EncodeClientMessage(ms[i]);
      assert At(e, 0, e) by { assert e[0..|e|] == e; }
      ClientMessages.ClientMessageRoundTrip(ms[i], e, 0);
    }
  }

  /** The subscription LegacySubscribe queues: every row of every table,
    * request 1. */
  const LegacySubscription: ClientMessages.ClientMessage :=
    ClientMessages.Subscribe(ClientMessages.SubscribeData(["SELECT * FROM *"], 1))

  /** The legacy subscription can be sent, and reads back as itself. */
  lemma LegacySubscriptionIsSendable()
    ensures ClientMessages.WellFormed(LegacySubscription) && ClientMessages.Encodable(LegacySubscription)
    ensures ClientMessages.Writable(LegacySubscription)
  {
    assert IsAscii("SELECT * FROM *") && HasNoNul("SELECT * FROM *");
    ClientMessages.EncodableIsWritable(LegacySubscription);
  }

  // ---------------------------------------------------------------------
  // Handling processed messages

  /** What OnConnect receives: the identity and the token. */
  datatype Greeting = Greeting(identity: Identities.Identity, token: string)

  predicate IsIdentityToken(p: Processed) {
    p.Decoded? && p.message.IdentityToken?
  }

  /** The identity after handling a run of messages: the one the last
    * IdentityToken carried, or the one before when there is none. */
  function IdentityAfter(id: Identities.Identity, ms: seq<Processed>): Identities.Identity
  {
    if ms == [] then id
    else if IsIdentityToken(ms[|ms| - 1]) then ms[|ms| - 1].message.identityToken.identity
    else IdentityAfter(id, ms[..|ms| - 1])
  }

  /** The greetings a bound OnConnect receives for a run of messages: one
    * per IdentityToken, in order. */
  function Greetings(ms: seq<Processed>): (gs: seq<Greeting>)
    ensures |gs| <= |ms|
  {
    if ms == [] then []
    else
      var last := ms[|ms| - 1];
      Greetings(ms[..|ms| - 1])
        + if IsIdentityToken(last) then [Greeting(last.message.identityToken.identity, last.message.identityToken.token)] else []
  }

  /** The identity kept is the last token's: when message i is an
    * IdentityToken and none follows it, its identity is the result. */
  lemma {:induction false} IdentityIsLastToken(id: Identities.Identity, ms: seq<Processed>, i: nat)
    requires i < |ms| && IsIdentityToken(ms[i])
    requires forall j :: i < j < |ms| ==> !IsIdentityToken(ms[j])
    ensures IdentityAfter(id, ms) == ms[i].message.identityToken.identity
  {
    if i < |ms| - 1 {
      IdentityIsLastToken(id, ms[..|ms| - 1], i);
    }
  }

  /** Without an IdentityToken, the identity is kept and OnConnect is not
    * called. */
  lemma {:induction false} NoTokenKeepsIdentity(id: Identities.Identity, ms: seq<Processed>)
    requires forall j :: 0 <= j < |ms| ==> !IsIdentityToken(ms[j])
    ensures IdentityAfter(id, ms) == id
    ensures Greetings(ms) == []
  {
    if ms != [] {
      NoTokenKeepsIdentity(id, ms[..|ms| - 1]);
    }
  }

  /** Greetings are counted by tokens: handling a run of messages greets
    * once for each IdentityToken in it. */
  lemma {:induction false} GreetingsCountTokens(ms: seq<Processed>)
    ensures |Greetings(ms)| == |set i | 0 <= i < |ms| && IsIdentityToken(ms[i])|
  {
    if ms != [] {
      var k := |ms| - 1;
      var front := ms[..k];
      GreetingsCountTokens(front);
      var before := set i | 0 <= i < k && IsIdentityToken(front[i]);
      var after := set i | 0 <= i < |ms| && IsIdentityToken(ms[i]);
      if IsIdentityToken(ms[k]) {
        assert after == before + {k};
      } else {
        assert after == before;
      }
    }
  }

  // ---------------------------------------------------------------------
  // The client

  /** A handshake that times out leaves the callbacks flag set, so the
    * socket that the next Connect creates gets no handlers: although it
    * connects, none of its frames reaches HandleRawMessage. */
  method RetryAfterTimeoutIsDeaf(protocol: string, authToken: string, host: string, nameOrAddress: string,
                                 compression: Compression, lightMode: bool, idBytes: seq<byte>,
                                 inflate: seq<byte> -> seq<byte>) returns (c: StdbClient)
    requires |idBytes| == 16
    ensures c.isConnected && c.socket == Open(true) && c.callbacksInitialized && !c.handlersBound
  {
    c := new StdbClient(protocol, authToken, host, nameOrAddress, compression, lightMode, idBytes, inflate);
    c.Connect();
    c.RunCycle(true, TimedOut);
    c.Connect();
    c.RunCycle(true, Connected);
  }

  class StdbClient {
    /** The WebSocket sub-protocol of the connect options. */
    const protocol: string
    const authToken: string
    const host: string
    const nameOrAddress: string
    const compression: Compression
    const lightMode: bool
    const connectionIdHex: string
    /** The engine's zlib inflation, used in the Gzip mode. */
    const inflate: seq<byte> -> seq<byte>

    var identity: Identities.Identity
    var stop: bool
    var startConnection: bool
    var isConnected: bool
    var lastConnectError: string
    /** Whether OnConnect (and with it OnConnectError and OnDisconnect)
      * has a function bound. */
    var delegatesBound: bool
    var callbacksInitialized: bool
    /** What WS holds. */
    var socket: Socket
    /** Whether the socket WS holds now has HandleRawMessage and
      * HandleClosed bound, so that its frames reach the client. */
    ghost var handlersBound: bool

    var rawQueue: seq<RawFrame>
    var processedQueue: seq<Processed>
    var clientQueue: seq<ClientMessages.ClientMessage>

    /** The upgrade requests made, in order. */
    ghost var requests: seq<Request>
    /** The frames handed to WS->Send, in order. */
    ghost var sent: seq<seq<byte>>
    /** The codes handed to WS->Close, in order. */
    ghost var closeCodes: seq<int>
    /** The calls OnConnect received, in order. */
    ghost var greetings: seq<Greeting>

    /** The constructor, given the sixteen random bytes of the connection
      * id: nothing queued, no socket, not stopped. */
    constructor (protocol: string, authToken: string, host: string, nameOrAddress: string,
                 compression: Compression, lightMode: bool, idBytes: seq<byte>, inflate: seq<byte> -> seq<byte>)
      requires |idBytes| == 16
      ensures this.protocol == protocol && this.authToken == authToken && this.host == host
      ensures this.nameOrAddress == nameOrAddress && this.compression == compression && this.lightMode == lightMode
      ensures this.inflate == inflate
      ensures connectionIdHex == Hex.Print(idBytes, false) && |connectionIdHex| == 32
      ensures identity == Identities.Default
      ensures !stop && !startConnection && !isConnected && lastConnectError == ""
      ensures !delegatesBound && !callbacksInitialized && socket == NoSocket && !handlersBound
      ensures rawQueue == [] && processedQueue == [] && clientQueue == []
      ensures requests == [] && sent == [] && closeCodes == [] && greetings == []
    {
      var hex := GenerateConnectionIdHex(idBytes);
      this.protocol := protocol;
      this.authToken := authToken;
      this.host := host;
      this.nameOrAddress := nameOrAddress;
      this.compression := compression;
      this.lightMode := lightMode;
      this.inflate := inflate;
      connectionIdHex := hex;
      identity := Identities.Default;
      stop := false;
      startConnection := false;
      isConnected := false;
      lastConnectError := "";
      delegatesBound := false;
      callbacksInitialized := false;
      socket := NoSocket;
      handlersBound := false;
      rawQueue := [];
      processedQueue := [];
      clientQueue := [];
      requests := [];
      sent := [];
      closeCodes := [];
      greetings := [];
    }

    /** The builder binding OnConnect and the other delegates. */
    method BindDelegates()
      modifies this`delegatesBound
      ensures delegatesBound
    {
      delegatesBound := true;
    }

    /** Stop: the worker loop ends and later frames are dropped. */
    method Stop()
      modifies this`stop
      ensures stop
    {
      stop := true;
    }

    /** Connect: clears the stop flag and asks the worker to connect. */
    method Connect()
      modifies this`stop, this`startConnection
      ensures !stop && startConnection
    {
      stop := false;
      startConnection := true;
    }

    /** TeardownWebSocket: a socket there has its handlers removed and is
      * closed and dropped, and the callbacks must be set up again. */
    method TeardownWebSocket()
      modifies this`callbacksInitialized, this`socket, this`closeCodes, this`handlersBound
      ensures socket == NoSocket
      ensures callbacksInitialized == (old(callbacksInitialized) && old(socket) == NoSocket)
      ensures handlersBound == (old(handlersBound) && old(socket) == NoSocket)
      ensures closeCodes == old(closeCodes) + if old(socket).Open? then [NormalCloseCode] else []
    {
      if socket.Open? {
        handlersBound := false;
        callbacksInitialized := false;
        closeCodes := closeCodes + [NormalCloseCode];
        socket := NoSocket;
      }
    }

    /** Shutdown: stops, unbinds the delegates and tears the socket down. */
    method Shutdown()
      modifies this`stop, this`delegatesBound, this`callbacksInitialized, this`socket, this`closeCodes, this`handlersBound
      ensures stop && !delegatesBound && socket == NoSocket
      ensures callbacksInitialized == (old(callbacksInitialized) && old(socket) == NoSocket)
      ensures handlersBound == (old(handlersBound) && old(socket) == NoSocket)
      ensures closeCodes == old(closeCodes) + if old(socket).Open? then [NormalCloseCode] else []
    {
      stop := true;
      delegatesBound := false;
      TeardownWebSocket();
    }

    /** HandleRawMessage, the socket's raw-message handler, so it runs only
      * for a socket it is bound on: dropped once stopped; an over-size
      * frame closes the socket with 1013 and is not queued; any other
      * frame is queued last, unchanged, with its arrival time. */
    method HandleRawMessage(data: seq<byte>, now: int)
      requires socket.Open? && handlersBound
      modifies this`rawQueue, this`closeCodes
      ensures old(stop) ==> rawQueue == old(rawQueue) && closeCodes == old(closeCodes)
      ensures !old(stop) && |data| > MaxMessageSize ==>
        rawQueue == old(rawQueue) && closeCodes == old(closeCodes) + [TooBigCloseCode]
      ensures !old(stop) && |data| <= MaxMessageSize ==>
        rawQueue == old(rawQueue) + [RawFrame(data, now)] && closeCodes == old(closeCodes)
    {
      if stop {
        return;
      }
      if |data| > MaxMessageSize {
        closeCodes := closeCodes + [TooBigCloseCode];
        return;
      }
      rawQueue := rawQueue + [RawFrame(data, now)];
    }

    /** DecompressAndDeserialize: drops the first byte, inflates the rest
      * in the Gzip mode and passes it through otherwise, and reads a
      * message from what is left; with nothing to read, `out` is kept. */
    method DecompressAndDeserialize(inBytes: seq<byte>, out: Processed) returns (r: Processed)
      requires Readable(compression, inflate, inBytes)
      ensures r == DecodeFrame(compression, inflate, inBytes, out)
    {
      if |inBytes| < 1 {
        return out;
      }
      var compressed := inBytes[1..];
      var working: seq<byte>;
      if compression == NoCompression {
        working := compressed;
      } else if compression == Gzip {
        working := inflate(compressed);
      } else {
        working := compressed;
      }
      if |working| <= 0 {
        return out;
      }
      var reader := new BinaryReaders.BinaryReader(working);
      var m := ServerMessages.Deserialize(reader);
      r := Decoded(m);
    }

    /** The first loop of a worker pass: every raw frame, oldest first,
      * becomes one processed message queued last. */
    method ProcessRawFrames()
      requires forall i :: 0 <= i < |rawQueue| ==> Readable(compression, inflate, rawQueue[i].bytes)
      modifies this`rawQueue, this`processedQueue
      ensures rawQueue == []
      ensures processedQueue == old(processedQueue) + DecodeFrames(compression, inflate, old(rawQueue))
    {
      ghost var all := rawQueue;
      ghost var k := 0;
      while rawQueue != []
        invariant 0 <= k <= |all| && rawQueue == all[k..]
        invariant processedQueue + DecodeFrames(compression, inflate, rawQueue)
          == old(processedQueue) + DecodeFrames(compression, inflate, all)
        decreases |rawQueue|
      {
        var raw := rawQueue[0];
        var rest := rawQueue[1..];
        assert raw == all[k] && rest == all[k + 1..];
        assert DecodeFrames(compression, inflate, rawQueue)
          == [DecodeFrame(compression, inflate, raw.bytes, Blank)] + DecodeFrames(compression, inflate, rest);
        rawQueue := rest;
        var processed := DecompressAndDeserialize(raw.bytes, Blank);
        processedQueue := processedQueue + [processed];
        k := k + 1;
      }
    }

    /** SendClientMessage: the message serialized by a fresh writer, whose
      * whole array is sent on the socket WS holds. */
    method SendClientMessage(m: ClientMessages.ClientMessage)
      requires ClientMessages.Writable(m)
      requires socket.Open?
      modifies this`sent
      ensures sent == old(sent) + [ClientMessages.EncodeClientMessage(m)]
    {
      var writer := new BinaryWriters.BinaryWriter();
      ClientMessages.Serialize(m, writer);
      ghost var e := ClientMessages.EncodeClientMessage(m);
      BinaryWriters.WriteAtEnd([], e);
      assert [] + e == e;
      sent := sent + [writer.data.bytes];
    }

    /** The second loop of a worker pass: every queued client message,
      * oldest first, is sent. */
    method SendQueuedMessages()
      requires AllWritable(clientQueue)
      requires clientQueue != [] ==> socket.Open?
      modifies this`clientQueue, this`sent
      ensures clientQueue == []
      ensures sent == old(sent) + EncodeAll(old(clientQueue))
    {
      ghost var all := clientQueue;
      ghost var k := 0;
      while clientQueue != []
        invariant 0 <= k <= |all| && clientQueue == all[k..]
        invariant AllWritable(clientQueue)
        invariant clientQueue != [] ==> socket.Open?
        invariant sent == old(sent) + EncodeAll(all[..k])
        decreases |clientQueue|
      {
        var m := clientQueue[0];
        ghost var done := all[..k];
        assert all[..k + 1] == done + [m];
        clientQueue := clientQueue[1..];
        SendClientMessage(m);
        EncodeAllSnoc(done, m);
        k := k + 1;
      }
      assert all[..k] == all;
    }

    /** ConnectWebSocket, with the socket's creation and the handshake's
      * outcome given: the request carries the subscribe URL and the
      * headers; the result says whether the socket connected in time. */
    method ConnectWebSocket(created: bool, outcome: Handshake) returns (ok: bool)
      modifies this`startConnection, this`requests, this`socket,
        this`callbacksInitialized, this`lastConnectError, this`handlersBound
      ensures !startConnection
      ensures requests == old(requests) + [Request(Url(host, nameOrAddress, connectionIdHex, compression, lightMode), protocol, UpgradeHeaders(authToken))]
      ensures ok <==> created && outcome.Connected?
      ensures socket == if created then Open(ok) else NoSocket
      ensures callbacksInitialized == (old(callbacksInitialized) || created)
      ensures handlersBound == (created && !old(callbacksInitialized))
      ensures !created ==> lastConnectError == CreateFailedText
      ensures created && outcome.Connected? ==> lastConnectError == old(lastConnectError)
      ensures created && outcome.ConnectionError? ==>
        lastConnectError == if outcome.error == "" then TimedOutText else outcome.error
      ensures created && outcome.TimedOut? ==>
        lastConnectError == if old(lastConnectError) == "" then TimedOutText else old(lastConnectError)
    {
      startConnection := false;
      var url := Url(host, nameOrAddress, connectionIdHex, compression, lightMode);
      var headers := UpgradeHeaders(authToken);
      requests := requests + [Request(url, protocol, headers)];
      if !created {
        socket := NoSocket;
        handlersBound := false;
        lastConnectError := CreateFailedText;
        return false;
      }
      socket := Open(false);
      handlersBound := false;
      if !callbacksInitialized {
        callbacksInitialized := true;
        handlersBound := true;
      }
      var got := !outcome.TimedOut?;
      var connectResult := outcome.Connected?;
      if outcome.ConnectionError? {
        lastConnectError := outcome.error;
      }
      if !got || !connectResult {
        if lastConnectError == "" {
          lastConnectError := TimedOutText;
        }
        return false;
      }
      socket := Open(true);
      return true;
    }

    /** One pass of Run's loop: connect when asked and not connected, turn
      * every raw frame into a processed message in arrival order, then
      * send every queued client message in order. */
    method RunCycle(created: bool, outcome: Handshake)
      requires forall i :: 0 <= i < |rawQueue| ==> Readable(compression, inflate, rawQueue[i].bytes)
      requires AllWritable(clientQueue)
      requires clientQueue != [] ==> if !isConnected && startConnection then created else socket.Open?
      modifies this`isConnected, this`startConnection, this`requests, this`socket, this`handlersBound,
        this`callbacksInitialized, this`lastConnectError, this`rawQueue, this`processedQueue, this`clientQueue, this`sent
      ensures old(!isConnected && startConnection) ==> isConnected == (created && outcome.Connected?) && !startConnection
      ensures old(!isConnected && startConnection) ==>
        requests == old(requests) + [Request(Url(host, nameOrAddress, connectionIdHex, compression, lightMode), protocol, UpgradeHeaders(authToken))]
      ensures old(!isConnected && startConnection) ==>
        socket == (if created then Open(isConnected) else NoSocket) &&
        callbacksInitialized == (old(callbacksInitialized) || created) &&
        handlersBound == (created && !old(callbacksInitialized))
      ensures old(!isConnected && startConnection) && !created ==> lastConnectError == CreateFailedText
      ensures old(!isConnected && startConnection) && created && outcome.Connected? ==>
        lastConnectError == old(lastConnectError)
      ensures old(!isConnected && startConnection) && created && outcome.ConnectionError? ==>
        lastConnectError == if outcome.error == "" then TimedOutText else outcome.error
      ensures old(!isConnected && startConnection) && created && outcome.TimedOut? ==>
        lastConnectError == if old(lastConnectError) == "" then TimedOutText else old(lastConnectError)
      ensures !old(!isConnected && startConnection) ==>
        isConnected == old(isConnected) && startConnection == old(startConnection) && requests == old(requests) &&
        socket == old(socket) && callbacksInitialized == old(callbacksInitialized) &&
        handlersBound == old(handlersBound) && lastConnectError == old(lastConnectError)
      ensures rawQueue == [] && clientQueue == []
      ensures processedQueue == old(processedQueue) + DecodeFrames(compression, inflate, old(rawQueue))
      ensures sent == old(sent) + EncodeAll(old(clientQueue))
    {
      if !isConnected && startConnection {
        isConnected := ConnectWebSocket(created, outcome);
      }
      ProcessRawFrames();
      SendQueuedMessages();
    }

    /** HandleProcessedMessage: an IdentityToken sets the identity and is
      * passed to a bound OnConnect; every other message changes nothing.
      * The blank message fails the payload's type check, so it is not
      * accepted. */
    method HandleProcessedMessage(msg: Processed)
      requires msg.Decoded?
      modifies this`identity, this`greetings
      ensures identity == IdentityAfter(old(identity), [msg])
      ensures greetings == old(greetings) + if delegatesBound then Greetings([msg]) else []
    {
      assert [msg][..0] == [];
      match msg.message {
        case IdentityToken(token) =>
          identity := token.identity;
          if delegatesBound {
            greetings := greetings + [Greeting(token.identity, token.token)];
          }
        case _ =>
      }
    }

    /** FrameTick: every processed message, oldest first, is handled once
      * and the queue is left empty. */
    method FrameTick()
      requires forall i :: 0 <= i < |processedQueue| ==> processedQueue[i].Decoded?
      modifies this`processedQueue, this`identity, this`greetings
      ensures processedQueue == []
      ensures identity == IdentityAfter(old(identity), old(processedQueue))
      ensures greetings == old(greetings) + if delegatesBound then Greetings(old(processedQueue)) else []
    {
      ghost var all := processedQueue;
      ghost var k := 0;
      while processedQueue != []
        invariant 0 <= k <= |all| && processedQueue == all[k..]
        invariant identity == IdentityAfter(old(identity), all[..k])
        invariant greetings == old(greetings) + if delegatesBound then Greetings(all[..k]) else []
        decreases |processedQueue|
      {
        var msg := processedQueue[0];
        processedQueue := processedQueue[1..];
        assert all[..k + 1][..k] == all[..k];
        assert all[k + 1..] == processedQueue;
        HandleProcessedMessage(msg);
        k := k + 1;
      }
      assert all[..k] == all;
    }

    /** LegacySubscribe: when the socket is connected, the legacy
      * subscription is queued last; otherwise nothing is queued. */
    method LegacySubscribe()
      requires socket.Open?
      modifies this`clientQueue
      ensures clientQueue == old(clientQueue) + if socket.connected then [LegacySubscription] else []
    {
      if !socket.connected {
        return;
      }
      clientQueue := clientQueue + [LegacySubscription];
    }
  }
}
