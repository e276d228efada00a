/** FClientMessage: the messages the client sends, a tag byte followed by
  * the fields of the variant the tag names.
  *
  * Every payload's ReadFields and WriteFields except FSubscribeData's take
  * the reader or writer by value. Reading such a payload therefore leaves
  * the caller's reader just past the tag, and writing one leaves the
  * caller's writer position just past the tag, although the bytes land in
  * the caller's array (the copy shares it). The read and write methods
  * below make that copy explicitly. */
module ClientMessages {
  import opened Wrappers
  import opened Bytes
  import opened Codec
  import opened QueryIds
  import opened BinaryReaders
  import opened BinaryWriters

  datatype CallReducerData = CallReducerData(reducer: string, args: seq<byte>, requestId: u32, flags: byte)
  datatype SubscribeData = SubscribeData(queryStrings: seq<string>, requestId: u32)
  datatype OneOffQueryData = OneOffQueryData(messageId: seq<byte>, queryString: string)
  datatype SubscribeSingleData = SubscribeSingleData(query: string, requestId: u32, queryId: QueryId)
  datatype SubscribeMultiData = SubscribeMultiData(queryStrings: seq<string>, requestId: u32, queryId: QueryId)
  /** FUnsubscribeData and FUnsubscribeMultiData, which have the same
    * fields in the same order. */
  datatype UnsubscribeData = UnsubscribeData(requestId: u32, queryId: QueryId)

  /** A message: the variant is the type, the argument the payload. A tag
    * naming no variant is kept as it was read, with no payload. */
  datatype ClientMessage =
    | CallReducer(callReducer: CallReducerData)
    | Subscribe(subscribe: SubscribeData)
    | OneOffQuery(oneOffQuery: OneOffQueryData)
    | SubscribeSingle(subscribeSingle: SubscribeSingleData)
    | SubscribeMulti(subscribeMulti: SubscribeMultiData)
    | Unsubscribe(unsubscribe: UnsubscribeData)
    | UnsubscribeMulti(unsubscribeMulti: UnsubscribeData)
    | UnknownClientMessage(tag: byte)

  /** EClientMessageType: the tag byte of each variant. */
  function Tag(m: ClientMessage): byte {
    match m
    case CallReducer(_) => 0
    case Subscribe(_) => 1
    case OneOffQuery(_) => 2
    case SubscribeSingle(_) => 3
    case SubscribeMulti(_) => 4
    case Unsubscribe(_) => 5
    case UnsubscribeMulti(_) => 6
    case UnknownClientMessage(t) => t
  }

  /** The factory functions give each payload the tag of its variant. */
  lemma TagsAreDiscriminants()
    ensures forall c :: Tag(CallReducer(c)) == 0
    ensures forall s :: Tag(Subscribe(s)) == 1
    ensures forall o :: Tag(OneOffQuery(o)) == 2
    ensures forall s :: Tag(SubscribeSingle(s)) == 3
    ensures forall s :: Tag(SubscribeMulti(s)) == 4
    ensures forall u :: Tag(Unsubscribe(u)) == 5
    ensures forall u :: Tag(UnsubscribeMulti(u)) == 6
  {
  }

  /** A message Deserialize can return: an unknown tag names no variant. */
  predicate WellFormed(m: ClientMessage) {
    m.UnknownClientMessage? ==> m.tag >= 7
  }

  /** What WriteString and WriteArray need: counts that fit an int32. */
  predicate Writable(m: ClientMessage) {
    match m
    case CallReducer(c) => |WrittenBytes(c.reducer)| < 0x8000_0000 && |c.args| < 0x8000_0000
    case Subscribe(s) => |s.queryStrings| < 0x8000_0000
    case OneOffQuery(o) => |o.messageId| < 0x8000_0000 && |WrittenBytes(o.queryString)| < 0x8000_0000
    case SubscribeSingle(s) => |WrittenBytes(s.query)| < 0x8000_0000
    case SubscribeMulti(s) => |s.queryStrings| < 0x8000_0000
    case _ => true
  }

  /** A message whose strings and arrays read back as written. */
  predicate Encodable(m: ClientMessage) {
    match m
    case CallReducer(c) => WireString(c.reducer) && |c.args| < 0x8000_0000
    case Subscribe(s) => WireStrings(s.queryStrings)
    case OneOffQuery(o) => |o.messageId| < 0x8000_0000 && WireString(o.queryString)
    case SubscribeSingle(s) => WireString(s.query)
    case SubscribeMulti(s) => WireStrings(s.queryStrings)
    case _ => true
  }

  lemma EncodableIsWritable(m: ClientMessage)
    requires Encodable(m)
    ensures Writable(m)
  {
    match m
    case CallReducer(c) => WireStringFits(c.reducer);
    case OneOffQuery(o) => WireStringFits(o.queryString);
    case SubscribeSingle(s) => WireStringFits(s.query);
    case _ =>
  }

  // ---------------------------------------------------------------------
  // The payloads on the wire

  function DecodeCallReducer(d: seq<byte>, p: nat): Option<Read<CallReducerData>> {
    var reducer :- DecodeString(d, p);
    var args :- DecodeByteArray(d, reducer.next);
    var requestId :- DecodeUInt32(d, args.next);
    var flags :- DecodeByte(d, requestId.next);
    Some(Read(CallReducerData(reducer.value, args.value, requestId.value, flags.value), flags.next))
  }

  function EncodeCallReducer(c: CallReducerData): seq<byte> {
    EncodeString(c.reducer) + EncodeByteArray(c.args) + EncodeUInt32(c.requestId) + EncodeByte(c.flags)
  }

  function DecodeSubscribe(d: seq<byte>, p: nat): Option<Read<SubscribeData>> {
    var queries :- DecodeArray(DecodeString, d, p);
    var requestId :- DecodeUInt32(d, queries.next);
    Some(Read(SubscribeData(queries.value, requestId.value), requestId.next))
  }

  function EncodeSubscribe(s: SubscribeData): seq<byte> {
    EncodeArray(EncodeString, s.queryStrings) + EncodeUInt32(s.requestId)
  }

  function DecodeOneOffQuery(d: seq<byte>, p: nat): Option<Read<OneOffQueryData>> {
    var messageId :- DecodeByteArray(d, p);
    var query :- DecodeString(d, messageId.next);
    Some(Read(OneOffQueryData(messageId.value, query.value), query.next))
  }

  function EncodeOneOffQuery(o: OneOffQueryData): seq<byte> {
    EncodeByteArray(o.messageId) + EncodeString(o.queryString)
  }

  function DecodeSubscribeSingle(d: seq<byte>, p: nat): Option<Read<SubscribeSingleData>> {
    var query :- DecodeString(d, p);
    var requestId :- DecodeUInt32(d, query.next);
    var queryId :- DecodeQueryId(d, requestId.next);
    Some(Read(SubscribeSingleData(query.value, requestId.value, queryId.value), queryId.next))
  }

  function EncodeSubscribeSingle(s: SubscribeSingleData): seq<byte> {
    EncodeString(s.query) + EncodeUInt32(s.requestId) + EncodeQueryId(s.queryId)
  }

  function DecodeSubscribeMulti(d: seq<byte>, p: nat): Option<Read<SubscribeMultiData>> {
    var queries :- DecodeArray(DecodeString, d, p);
    var requestId :- DecodeUInt32(d, queries.next);
    var queryId :- DecodeQueryId(d, requestId.next);
    Some(Read(SubscribeMultiData(queries.value, requestId.value, queryId.value), queryId.next))
  }

  function EncodeSubscribeMulti(s: SubscribeMultiData): seq<byte> {
    EncodeArray(EncodeString, s.queryStrings) + EncodeUInt32(s.requestId) + EncodeQueryId(s.queryId)
  }

  function DecodeUnsubscribe(d: seq<byte>, p: nat): Option<Read<UnsubscribeData>> {
    var requestId :- DecodeUInt32(d, p);
    var queryId :- DecodeQueryId(d, requestId.next);
    Some(Read(UnsubscribeData(requestId.value, queryId.value), queryId.next))
  }

  function EncodeUnsubscribe(u: UnsubscribeData): seq<byte> {
    EncodeUInt32(u.requestId) + EncodeQueryId(u.queryId)
  }

  /** The payload bytes Serialize writes after the tag: none for an
    * unknown tag. */
  function EncodeFields(m: ClientMessage): seq<byte> {
    match m
    case CallReducer(c) => EncodeCallReducer(c)
    case Subscribe(s) => EncodeSubscribe(s)
    case OneOffQuery(o) => EncodeOneOffQuery(o)
    case SubscribeSingle(s) => EncodeSubscribeSingle(s)
    case SubscribeMulti(s) => EncodeSubscribeMulti(s)
    case Unsubscribe(u) => EncodeUnsubscribe(u)
    case UnsubscribeMulti(u) => EncodeUnsubscribe(u)
    case UnknownClientMessage(_) => []
  }

  /** Serialize: the tag, then the payload. */
  function EncodeClientMessage(m: ClientMessage): (e: seq<byte>)
    ensures |e| >= 1 && e[0] == Tag(m)
    ensures m.UnknownClientMessage? ==> e == [m.tag]
  {
    [Tag(m)] + EncodeFields(m)
  }

  /** The payload a tag names, read from q, ending after the payload; an
    * unknown tag names no payload. */
  function DecodeFields(tag: byte, d: seq<byte>, q: nat): Option<Read<ClientMessage>> {
    if tag == 0 then
      var c :- DecodeCallReducer(d, q);
      Some(Read(CallReducer(c.value), c.next))
    else if tag == 1 then
      var s :- DecodeSubscribe(d, q);
      Some(Read(Subscribe(s.value), s.next))
    else if tag == 2 then
      var o :- DecodeOneOffQuery(d, q);
      Some(Read(OneOffQuery(o.value), o.next))
    else if tag == 3 then
      var s :- DecodeSubscribeSingle(d, q);
      Some(Read(SubscribeSingle(s.value), s.next))
    else if tag == 4 then
      var s :- DecodeSubscribeMulti(d, q);
      Some(Read(SubscribeMulti(s.value), s.next))
    else if tag == 5 then
      var u :- DecodeUnsubscribe(d, q);
      Some(Read(Unsubscribe(u.value), u.next))
    else if tag == 6 then
      var u :- DecodeUnsubscribe(d, q);
      Some(Read(UnsubscribeMulti(u.value), u.next))
    else
      Some(Read(UnknownClientMessage(tag), q))
  }

  /** Deserialize: the message and where the caller's reader ends up,
    * which is just past the tag for every variant read by value. */
  function DeserializeClient(d: seq<byte>, p: nat): Option<Read<ClientMessage>> {
    var tag :- DecodeByte(d, p);
    var m :- DecodeFields(tag.value, d, tag.next);
    Some(Read(m.value, if m.value.Subscribe? then m.next else tag.next))
  }

  // ---------------------------------------------------------------------
  // Round trips

  // Each round trip is split in steps kept apart, which keeps each proof
  // small: the encoding found at p is each field's encoding found in turn
  // (the Parts lemmas), each field decodes (the FieldsDecode lemmas, by the
  // codec's round trips), and the fields decoded in turn make the payload
  // (the OfFields lemmas). The positions between fields are named once so
  // that no step has to recompute them.

  lemma CallReducerParts(c: CallReducerData, d: seq<byte>, p: nat, q1: nat, q2: nat, q3: nat)
    requires At(d, p, EncodeString(c.reducer) + EncodeByteArray(c.args) + EncodeUInt32(c.requestId) + EncodeByte(c.flags))
    requires q1 == p + |EncodeString(c.reducer)|
    requires q2 == q1 + |EncodeByteArray(c.args)|
    requires q3 == q2 + 4
    ensures At(d, p, EncodeString(c.reducer)) && At(d, q1, EncodeByteArray(c.args))
    ensures At(d, q2, EncodeUInt32(c.requestId)) && At(d, q3, EncodeByte(c.flags))
  {
    var e1, e2, e3, e4 := EncodeString(c.reducer), EncodeByteArray(c.args), EncodeUInt32(c.requestId), EncodeByte(c.flags);
    AtNext(d, p, e1 + e2 + e3, q3, e4);
    AtNext(d, p, e1 + e2, q2, e3);
    AtNext(d, p, e1, q1, e2);
  }

  lemma CallReducerFieldsDecode(c: CallReducerData, d: seq<byte>, p: nat, q1: nat, q2: nat, q3: nat, q4: nat)
    requires WireString(c.reducer) && |c.args| < 0x8000_0000
    requires At(d, p, EncodeString(c.reducer)) && At(d, q1, EncodeByteArray(c.args))
    requires At(d, q2, EncodeUInt32(c.requestId)) && At(d, q3, EncodeByte(c.flags))
    requires q1 == p + |EncodeString(c.reducer)|
    requires q2 == q1 + |EncodeByteArray(c.args)|
    requires q3 == q2 + 4
    requires q4 == q3 + 1
    ensures DecodeString(d, p) == Some(Read(c.reducer, q1))
    ensures DecodeByteArray(d, q1) == Some(Read(c.args, q2))
    ensures DecodeUInt32(d, q2) == Some(Read(c.requestId, q3))
    ensures DecodeByte(d, q3) == Some(Read(c.flags, q4))
  {
    StringRoundTrip(c.reducer, d, p);
    ByteArrayRoundTrip(c.args, d, q1);
    UInt32RoundTrip(c.requestId, d, q2);
    ByteRoundTrip(c.flags, d, q3);
  }

  lemma CallReducerOfFields(c: CallReducerData, d: seq<byte>, p: nat, q1: nat, q2: nat, q3: nat, q4: nat)
    requires DecodeString(d, p) == Some(Read(c.reducer, q1))
    requires DecodeByteArray(d, q1) == Some(Read(c.args, q2))
    requires DecodeUInt32(d, q2) == Some(Read(c.requestId, q3))
    requires DecodeByte(d, q3) == Some(Read(c.flags, q4))
    ensures DecodeCallReducer(d, p) == Some(Read(c, q4))
  {
  }

  lemma CallReducerRoundTrip(c: CallReducerData, d: seq<byte>, p: nat)
    requires WireString(c.reducer) && |c.args| < 0x8000_0000
    requires At(d, p, EncodeCallReducer(c))
    ensures DecodeCallReducer(d, p) == Some(Read(c, p + |EncodeCallReducer(c)|))
  {
    var q1 := p + |EncodeString(c.reducer)|;
    var q2 := q1 + |EncodeByteArray(c.args)|;
    var q3 := q2 + 4;
    var q4 := q3 + 1;
    CallReducerParts(c, d, p, q1, q2, q3);
    CallReducerFieldsDecode(c, d, p, q1, q2, q3, q4);
    CallReducerOfFields(c, d, p, q1, q2, q3, q4);
  }

  lemma SubscribeParts(s: SubscribeData, d: seq<byte>, p: nat, q1: nat)
    requires At(d, p, EncodeArray(EncodeString, s.queryStrings) + EncodeUInt32(s.requestId))
    requires q1 == p + |EncodeArray(EncodeString, s.queryStrings)|
    ensures At(d, p, EncodeArray(EncodeString, s.queryStrings)) && At(d, q1, EncodeUInt32(s.requestId))
  {
    var e1, e2 := EncodeArray(EncodeString, s.queryStrings), EncodeUInt32(s.requestId);
    AtNext(d, p, e1, q1, e2);
  }

  lemma SubscribeFieldsDecode(s: SubscribeData, d: seq<byte>, p: nat, q1: nat, q2: nat)
    requires WireStrings(s.queryStrings)
    requires At(d, p, EncodeArray(EncodeString, s.queryStrings)) && At(d, q1, EncodeUInt32(s.requestId))
    requires q1 == p + |EncodeArray(EncodeString, s.queryStrings)|
    requires q2 == q1 + 4
    ensures DecodeArray(DecodeString, d, p) == Some(Read(s.queryStrings, q1))
    ensures DecodeUInt32(d, q1) == Some(Read(s.requestId, q2))
  {
    StringArrayRoundTrip(s.queryStrings, d, p);
    UInt32RoundTrip(s.requestId, d, q1);
  }

  lemma SubscribeOfFields(s: SubscribeData, d: seq<byte>, p: nat, q1: nat, q2: nat)
    requires DecodeArray(DecodeString, d, p) == Some(Read(s.queryStrings, q1))
    requires DecodeUInt32(d, q1) == Some(Read(s.requestId, q2))
    ensures DecodeSubscribe(d, p) == Some(Read(s, q2))
  {
  }

  lemma SubscribeRoundTrip(s: SubscribeData, d: seq<byte>, p: nat)
    requires WireStrings(s.queryStrings)
    requires At(d, p, EncodeSubscribe(s))
    ensures DecodeSubscribe(d, p) == Some(Read(s, p + |EncodeSubscribe(s)|))
  {
    var q1 := p + |EncodeArray(EncodeString, s.queryStrings)|;
    var q2 := q1 + 4;
    SubscribeParts(s, d, p, q1);
    SubscribeFieldsDecode(s, d, p, q1, q2);
    SubscribeOfFields(s, d, p, q1, q2);
  }

  lemma OneOffQueryParts(o: OneOffQueryData, d: seq<byte>, p: nat, q1: nat)
    requires At(d, p, EncodeByteArray(o.messageId) + EncodeString(o.queryString))
    requires q1 == p + |EncodeByteArray(o.messageId)|
    ensures At(d, p, EncodeByteArray(o.messageId)) && At(d, q1, EncodeString(o.queryString))
  {
    var e1, e2 := EncodeByteArray(o.messageId), EncodeString(o.queryString);
    AtNext(d, p, e1, q1, e2);
  }

  lemma OneOffQueryFieldsDecode(o: OneOffQueryData, d: seq<byte>, p: nat, q1: nat, q2: nat)
    requires |o.messageId| < 0x8000_0000 && WireString(o.queryString)
    requires At(d, p, EncodeByteArray(o.messageId)) && At(d, q1, EncodeString(o.queryString))
    requires q1 == p + |EncodeByteArray(o.messageId)|
    requires q2 == q1 + |EncodeString(o.queryString)|
    ensures DecodeByteArray(d, p) == Some(Read(o.messageId, q1))
    ensures DecodeString(d, q1) == Some(Read(o.queryString, q2))
  {
    ByteArrayRoundTrip(o.messageId, d, p);
    StringRoundTrip(o.queryString, d, q1);
  }

  lemma OneOffQueryOfFields(o: OneOffQueryData, d: seq<byte>, p: nat, q1: nat, q2: nat)
    requires DecodeByteArray(d, p) == Some(Read(o.messageId, q1))
    requires DecodeString(d, q1) == Some(Read(o.queryString, q2))
    ensures DecodeOneOffQuery(d, p) == Some(Read(o, q2))
  {
  }

  lemma OneOffQueryRoundTrip(o: OneOffQueryData, d: seq<byte>, p: nat)
    requires |o.messageId| < 0x8000_0000 && WireString(o.queryString)
    requires At(d, p, EncodeOneOffQuery(o))
    ensures DecodeOneOffQuery(d, p) == Some(Read(o, p + |EncodeOneOffQuery(o)|))
  {
    var q1 := p + |EncodeByteArray(o.messageId)|;
    var q2 := q1 + |EncodeString(o.queryString)|;
    OneOffQueryParts(o, d, p, q1);
    OneOffQueryFieldsDecode(o, d, p, q1, q2);
    OneOffQueryOfFields(o, d, p, q1, q2);
  }

  lemma SubscribeSingleParts(s: SubscribeSingleData, d: seq<byte>, p: nat, q1: nat, q2: nat)
    requires At(d, p, EncodeString(s.query) + EncodeUInt32(s.requestId) + EncodeQueryId(s.queryId))
    requires q1 == p + |EncodeString(s.query)|
    requires q2 == q1 + 4
    ensures At(d, p, EncodeString(s.query)) && At(d, q1, EncodeUInt32(s.requestId))
    ensures At(d, q2, EncodeQueryId(s.queryId))
  {
    var e1, e2, e3 := EncodeString(s.query), EncodeUInt32(s.requestId), EncodeQueryId(s.queryId);
    AtNext(d, p, e1 + e2, q2, e3);
    AtNext(d, p, e1, q1, e2);
  }

  lemma SubscribeSingleFieldsDecode(s: SubscribeSingleData, d: seq<byte>, p: nat, q1: nat, q2: nat, q3: nat)
    requires WireString(s.query)
    requires At(d, p, EncodeString(s.query)) && At(d, q1, EncodeUInt32(s.requestId))
    requires At(d, q2, EncodeQueryId(s.queryId))
    requires q1 == p + |EncodeString(s.query)|
    requires q2 == q1 + 4
    requires q3 == q2 + 4
    ensures DecodeString(d, p) == Some(Read(s.query, q1))
    ensures DecodeUInt32(d, q1) == Some(Read(s.requestId, q2))
    ensures DecodeQueryId(d, q2) == Some(Read(s.queryId, q3))
  {
    StringRoundTrip(s.query, d, p);
    UInt32RoundTrip(s.requestId, d, q1);
    QueryIdRoundTrip(s.queryId, d, q2);
  }

  lemma SubscribeSingleOfFields(s: SubscribeSingleData, d: seq<byte>, p: nat, q1: nat, q2: nat, q3: nat)
    requires DecodeString(d, p) == Some(Read(s.query, q1))
    requires DecodeUInt32(d, q1) == Some(Read(s.requestId, q2))
    requires DecodeQueryId(d, q2) == Some(Read(s.queryId, q3))
    ensures DecodeSubscribeSingle(d, p) == Some(Read(s, q3))
  {
  }

  lemma SubscribeSingleRoundTrip(s: SubscribeSingleData, d: seq<byte>, p: nat)
    requires WireString(s.query)
    requires At(d, p, EncodeSubscribeSingle(s))
    ensures DecodeSubscribeSingle(d, p) == Some(Read(s, p + |EncodeSubscribeSingle(s)|))
  {
    var q1 := p + |EncodeString(s.query)|;
    var q2 := q1 + 4;
    var q3 := q2 + 4;
    SubscribeSingleParts(s, d, p, q1, q2);
    SubscribeSingleFieldsDecode(s, d, p, q1, q2, q3);
    SubscribeSingleOfFields(s, d, p, q1, q2, q3);
  }

  lemma SubscribeMultiParts(s: SubscribeMultiData, d: seq<byte>, p: nat, q1: nat, q2: nat)
    requires At(d, p, EncodeArray(EncodeString, s.queryStrings) + EncodeUInt32(s.requestId) + EncodeQueryId(s.queryId))
    requires q1 == p + |EncodeArray(EncodeString, s.queryStrings)|
    requires q2 == q1 + 4
    ensures At(d, p, EncodeArray(EncodeString, s.queryStrings)) && At(d, q1, EncodeUInt32(s.requestId))
    ensures At(d, q2, EncodeQueryId(s.queryId))
  {
    var e1, e2, e3 := EncodeArray(EncodeString, s.queryStrings), EncodeUInt32(s.requestId), EncodeQueryId(s.queryId);
    AtNext(d, p, e1 + e2, q2, e3);
    AtNext(d, p, e1, q1, e2);
  }

  lemma SubscribeMultiFieldsDecode(s: SubscribeMultiData, d: seq<byte>, p: nat, q1: nat, q2: nat, q3: nat)
    requires WireStrings(s.queryStrings)
    requires At(d, p, EncodeArray(EncodeString, s.queryStrings)) && At(d, q1, EncodeUInt32(s.requestId))
    requires At(d, q2, EncodeQueryId(s.queryId))
    requires q1 == p + |EncodeArray(EncodeString, s.queryStrings)|
    requires q2 == q1 + 4
    requires q3 == q2 + 4
    ensures DecodeArray(DecodeString, d, p) == Some(Read(s.queryStrings, q1))
    ensures DecodeUInt32(d, q1) == Some(Read(s.requestId, q2))
    ensures DecodeQueryId(d, q2) == Some(Read(s.queryId, q3))
  {
    StringArrayRoundTrip(s.queryStrings, d, p);
    UInt32RoundTrip(s.requestId, d, q1);
    QueryIdRoundTrip(s.queryId, d, q2);
  }

  lemma SubscribeMultiOfFields(s: SubscribeMultiData, d: seq<byte>, p: nat, q1: nat, q2: nat, q3: nat)
    requires DecodeArray(DecodeString, d, p) == Some(Read(s.queryStrings, q1))
    requires DecodeUInt32(d, q1) == Some(Read(s.requestId, q2))
    requires DecodeQueryId(d, q2) == Some(Read(s.queryId, q3))
    ensures DecodeSubscribeMulti(d, p) == Some(Read(s, q3))
  {
  }

  lemma SubscribeMultiRoundTrip(s: SubscribeMultiData, d: seq<byte>, p: nat)
    requires WireStrings(s.queryStrings)
    requires At(d, p, EncodeSubscribeMulti(s))
    ensures DecodeSubscribeMulti(d, p) == Some(Read(s, p + |EncodeSubscribeMulti(s)|))
  {
    var q1 := p + |EncodeArray(EncodeString, s.queryStrings)|;
    var q2 := q1 + 4;
    var q3 := q2 + 4;
    SubscribeMultiParts(s, d, p, q1, q2);
    SubscribeMultiFieldsDecode(s, d, p, q1, q2, q3);
    SubscribeMultiOfFields(s, d, p, q1, q2, q3);
  }

  lemma UnsubscribeParts(u: UnsubscribeData, d: seq<byte>, p: nat, q1: nat)
    requires At(d, p, EncodeUInt32(u.requestId) + EncodeQueryId(u.queryId))
    requires q1 == p + 4
    ensures At(d, p, EncodeUInt32(u.requestId)) && At(d, q1, EncodeQueryId(u.queryId))
  {
    var e1, e2 := EncodeUInt32(u.requestId), EncodeQueryId(u.queryId);
    AtNext(d, p, e1, q1, e2);
  }

  lemma UnsubscribeFieldsDecode(u: UnsubscribeData, d: seq<byte>, p: nat, q1: nat, q2: nat)
    requires At(d, p, EncodeUInt32(u.requestId)) && At(d, q1, EncodeQueryId(u.queryId))
    requires q1 == p + 4
    requires q2 == q1 + 4
    ensures DecodeUInt32(d, p) == Some(Read(u.requestId, q1))
    ensures DecodeQueryId(d, q1) == Some(Read(u.queryId, q2))
  {
    UInt32RoundTrip(u.requestId, d, p);
    QueryIdRoundTrip(u.queryId, d, q1);
  }

  lemma UnsubscribeOfFields(u: UnsubscribeData, d: seq<byte>, p: nat, q1: nat, q2: nat)
    requires DecodeUInt32(d, p) == Some(Read(u.requestId, q1))
    requires DecodeQueryId(d, q1) == Some(Read(u.queryId, q2))
    ensures DecodeUnsubscribe(d, p) == Some(Read(u, q2))
  {
  }

  lemma UnsubscribeRoundTrip(u: UnsubscribeData, d: seq<byte>, p: nat)
    requires At(d, p, EncodeUnsubscribe(u))
    ensures DecodeUnsubscribe(d, p) == Some(Read(u, p + |EncodeUnsubscribe(u)|))
  {
    var q1 := p + 4;
    var q2 := q1 + 4;
    UnsubscribeParts(u, d, p, q1);
    UnsubscribeFieldsDecode(u, d, p, q1, q2);
    UnsubscribeOfFields(u, d, p, q1, q2);
  }

  // A payload decoded under its tag makes the message of that variant.

  lemma CallReducerTagged(c: CallReducerData, d: seq<byte>, q: nat, n: nat)
    requires DecodeCallReducer(d, q) == Some(Read(c, n))
    ensures DecodeFields(0, d, q) == Some(Read(CallReducer(c), n))
  {
  }

  lemma SubscribeTagged(s: SubscribeData, d: seq<byte>, q: nat, n: nat)
    requires DecodeSubscribe(d, q) == Some(Read(s, n))
    ensures DecodeFields(1, d, q) == Some(Read(Subscribe(s), n))
  {
  }

  lemma OneOffQueryTagged(o: OneOffQueryData, d: seq<byte>, q: nat, n: nat)
    requires DecodeOneOffQuery(d, q) == Some(Read(o, n))
    ensures DecodeFields(2, d, q) == Some(Read(OneOffQuery(o), n))
  {
  }

  lemma SubscribeSingleTagged(s: SubscribeSingleData, d: seq<byte>, q: nat, n: nat)
    requires DecodeSubscribeSingle(d, q) == Some(Read(s, n))
    ensures DecodeFields(3, d, q) == Some(Read(SubscribeSingle(s), n))
  {
  }

  lemma SubscribeMultiTagged(s: SubscribeMultiData, d: seq<byte>, q: nat, n: nat)
    requires DecodeSubscribeMulti(d, q) == Some(Read(s, n))
    ensures DecodeFields(4, d, q) == Some(Read(SubscribeMulti(s), n))
  {
  }

  lemma UnsubscribeTagged(u: UnsubscribeData, d: seq<byte>, q: nat, n: nat)
    requires DecodeUnsubscribe(d, q) == Some(Read(u, n))
    ensures DecodeFields(5, d, q) == Some(Read(Unsubscribe(u), n))
    ensures DecodeFields(6, d, q) == Some(Read(UnsubscribeMulti(u), n))
  {
  }

  // The payload under each known tag, in a lemma of its own.

  lemma CallReducerFields(m: ClientMessage, c: CallReducerData, d: seq<byte>, q: nat)
    requires m == CallReducer(c)
    requires WireString(c.reducer) && |c.args| < 0x8000_0000
    requires At(d, q, EncodeFields(m))
    ensures DecodeFields(Tag(m), d, q) == Some(Read(m, q + |EncodeFields(m)|))
  {
    CallReducerRoundTrip(c, d, q);
    CallReducerTagged(c, d, q, q + |EncodeCallReducer(c)|);
  }

  lemma SubscribeFields(m: ClientMessage, s: SubscribeData, d: seq<byte>, q: nat)
    requires m == Subscribe(s)
    requires WireStrings(s.queryStrings)
    requires At(d, q, EncodeFields(m))
    ensures DecodeFields(Tag(m), d, q) == Some(Read(m, q + |EncodeFields(m)|))
  {
    SubscribeRoundTrip(s, d, q);
    SubscribeTagged(s, d, q, q + |EncodeSubscribe(s)|);
  }

  lemma OneOffQueryFields(m: ClientMessage, o: OneOffQueryData, d: seq<byte>, q: nat)
    requires m == OneOffQuery(o)
    requires |o.messageId| < 0x8000_0000 && WireString(o.queryString)
    requires At(d, q, EncodeFields(m))
    ensures DecodeFields(Tag(m), d, q) == Some(Read(m, q + |EncodeFields(m)|))
  {
    OneOffQueryRoundTrip(o, d, q);
    OneOffQueryTagged(o, d, q, q + |EncodeOneOffQuery(o)|);
  }

  lemma SubscribeSingleFields(m: ClientMessage, s: SubscribeSingleData, d: seq<byte>, q: nat)
    requires m == SubscribeSingle(s)
    requires WireString(s.query)
    requires At(d, q, EncodeFields(m))
    ensures DecodeFields(Tag(m), d, q) == Some(Read(m, q + |EncodeFields(m)|))
  {
    SubscribeSingleRoundTrip(s, d, q);
    SubscribeSingleTagged(s, d, q, q + |EncodeSubscribeSingle(s)|);
  }

  lemma SubscribeMultiFields(m: ClientMessage, s: SubscribeMultiData, d: seq<byte>, q: nat)
    requires m == SubscribeMulti(s)
    requires WireStrings(s.queryStrings)
    requires At(d, q, EncodeFields(m))
    ensures DecodeFields(Tag(m), d, q) == Some(Read(m, q + |EncodeFields(m)|))
  {
    SubscribeMultiRoundTrip(s, d, q);
    SubscribeMultiTagged(s, d, q, q + |EncodeSubscribeMulti(s)|);
  }

  lemma UnsubscribeFields(m: ClientMessage, u: UnsubscribeData, d: seq<byte>, q: nat)
    requires m == Unsubscribe(u)
    requires At(d, q, EncodeFields(m))
    ensures DecodeFields(Tag(m), d, q) == Some(Read(m, q + |EncodeFields(m)|))
  {
    UnsubscribeRoundTrip(u, d, q);
    UnsubscribeTagged(u, d, q, q + |EncodeUnsubscribe(u)|);
  }

  lemma UnsubscribeMultiFields(m: ClientMessage, u: UnsubscribeData, d: seq<byte>, q: nat)
    requires m == UnsubscribeMulti(u)
    requires At(d, q, EncodeFields(m))
    ensures DecodeFields(Tag(m), d, q) == Some(Read(m, q + |EncodeFields(m)|))
  {
    UnsubscribeRoundTrip(u, d, q);
    UnsubscribeTagged(u, d, q, q + |EncodeUnsubscribe(u)|);
  }

  lemma UnknownFields(m: ClientMessage, d: seq<byte>, q: nat)
    requires m.UnknownClientMessage? && m.tag >= 7
    ensures DecodeFields(Tag(m), d, q) == Some(Read(m, q + |EncodeFields(m)|))
  {
  }

  /** Each payload reads back as written, ending after its last byte. */
  lemma FieldsRoundTrip(m: ClientMessage, d: seq<byte>, q: nat)
    requires WellFormed(m) && Encodable(m)
    requires At(d, q, EncodeFields(m))
    ensures DecodeFields(Tag(m), d, q) == Some(Read(m, q + |EncodeFields(m)|))
  {
    match m
    case CallReducer(c) => CallReducerFields(m, c, d, q);
    case Subscribe(s) => SubscribeFields(m, s, d, q);
    case OneOffQuery(o) => OneOffQueryFields(m, o, d, q);
    case SubscribeSingle(s) => SubscribeSingleFields(m, s, d, q);
    case SubscribeMulti(s) => SubscribeMultiFields(m, s, d, q);
    case Unsubscribe(u) => UnsubscribeFields(m, u, d, q);
    case UnsubscribeMulti(u) => UnsubscribeMultiFields(m, u, d, q);
    case UnknownClientMessage(_) => UnknownFields(m, d, q);
  }

  /** The tag and then the payload it names make the message. */
  lemma DeserializeOfFields(m: ClientMessage, d: seq<byte>, p: nat, q: nat)
    requires DecodeByte(d, p) == Some(Read(Tag(m), q))
    requires DecodeFields(Tag(m), d, q) == Some(Read(m, q + |EncodeFields(m)|))
    ensures DeserializeClient(d, p) ==
      Some(Read(m, p + if m.Subscribe? then |EncodeClientMessage(m)| else 1))
  {
  }

  /** Deserialize reads back what Serialize wrote, for every message with
    * ASCII strings without '\0'; the reader ends after the whole message only for
    * Subscribe, and just past the tag otherwise. */
  lemma ClientMessageRoundTrip(m: ClientMessage, d: seq<byte>, p: nat)
    requires WellFormed(m) && Encodable(m)
    requires At(d, p, EncodeClientMessage(m))
    ensures DeserializeClient(d, p) ==
      Some(Read(m, p + if m.Subscribe? then |EncodeClientMessage(m)| else 1))
  {
    var q := p + 1;
    AtNext(d, p, [Tag(m)], q, EncodeFields(m));
    ByteRoundTrip(Tag(m), d, p);
    FieldsRoundTrip(m, d, q);
    DeserializeOfFields(m, d, p, q);
  }

  /** Because the writer's position stays just past the tag, a second
    * message serialized with the same writer puts its tag over the first
    * message's payload. */
  lemma ReusedWriterOverwritesPayload(m1: ClientMessage, m2: ClientMessage, buf: seq<byte>, p: nat)
    requires !m1.Subscribe? && EncodeFields(m1) != []
    ensures WriteAt(buf, p, EncodeClientMessage(m1))[p + 1] == EncodeFields(m1)[0]
    ensures WriteAt(WriteAt(buf, p, EncodeClientMessage(m1)), p + 1, EncodeClientMessage(m2))[p + 1] == Tag(m2)
  {
  }

  // ---------------------------------------------------------------------
  // Reading

  /** FCallReducerData::ReadFields, on a copy of the caller's reader. */
  method ReadCallReducer(reader: BinaryReader) returns (c: CallReducerData)
    requires reader.Valid() && DecodeCallReducer(reader.data, reader.position).Some?
    ensures DecodeCallReducer(reader.data, reader.position).value.value == c
  {
    var r := new BinaryReader.Copy(reader);
    PrimitivesAreSound();
    var reducer := r.ReadString();
    var args := r.ReadArray(DecodeByte);
    var requestId := r.ReadUInt32();
    var flags := r.ReadByte();
    c := CallReducerData(reducer, args, requestId, flags);
  }

  /** FSubscribeData::ReadFields, on the caller's reader itself. */
  method ReadSubscribe(reader: BinaryReader) returns (s: SubscribeData)
    requires reader.Valid() && DecodeSubscribe(reader.data, reader.position).Some?
    modifies reader
    ensures reader.Valid()
    ensures DecodeSubscribe(reader.data, old(reader.position)) == Some(Read(s, reader.position))
  {
    var queries := reader.ReadStringArray();
    var requestId := reader.ReadUInt32();
    s := SubscribeData(queries, requestId);
  }

  method ReadOneOffQuery(reader: BinaryReader) returns (o: OneOffQueryData)
    requires reader.Valid() && DecodeOneOffQuery(reader.data, reader.position).Some?
    ensures DecodeOneOffQuery(reader.data, reader.position).value.value == o
  {
    var r := new BinaryReader.Copy(reader);
    PrimitivesAreSound();
    var messageId := r.ReadArray(DecodeByte);
    var query := r.ReadString();
    o := OneOffQueryData(messageId, query);
  }

  method ReadSubscribeSingle(reader: BinaryReader) returns (s: SubscribeSingleData)
    requires reader.Valid() && DecodeSubscribeSingle(reader.data, reader.position).Some?
    ensures DecodeSubscribeSingle(reader.data, reader.position).value.value == s
  {
    var r := new BinaryReader.Copy(reader);
    var query := r.ReadString();
    var requestId := r.ReadUInt32();
    var queryId := QueryIds.ReadFields(r);
    s := SubscribeSingleData(query, requestId, queryId);
  }

  method ReadSubscribeMulti(reader: BinaryReader) returns (s: SubscribeMultiData)
    requires reader.Valid() && DecodeSubscribeMulti(reader.data, reader.position).Some?
    ensures DecodeSubscribeMulti(reader.data, reader.position).value.value == s
  {
    var r := new BinaryReader.Copy(reader);
    StringIsSound();
    var queries := r.ReadArray(DecodeString);
    var requestId := r.ReadUInt32();
    var queryId := QueryIds.ReadFields(r);
    s := SubscribeMultiData(queries, requestId, queryId);
  }

  /** FUnsubscribeData::ReadFields and FUnsubscribeMultiData::ReadFields. */
  method ReadUnsubscribe(reader: BinaryReader) returns (u: UnsubscribeData)
    requires reader.Valid() && DecodeUnsubscribe(reader.data, reader.position).Some?
    ensures DecodeUnsubscribe(reader.data, reader.position).value.value == u
  {
    var r := new BinaryReader.Copy(reader);
    var requestId := r.ReadUInt32();
    var queryId := QueryIds.ReadFields(r);
    u := UnsubscribeData(requestId, queryId);
  }

  /** FClientMessage::Deserialize: the tag, then the payload it names; an
    * unknown tag is kept with no payload read. */
  method Deserialize(reader: BinaryReader) returns (m: ClientMessage)
    requires reader.Valid() && DeserializeClient(reader.data, reader.position).Some?
    modifies reader
    ensures reader.Valid()
    ensures DeserializeClient(reader.data, old(reader.position)) == Some(Read(m, reader.position))
  {
    var messageType := reader.ReadByte();
    if messageType == 1 {
      var s := ReadSubscribe(reader);
      m := Subscribe(s);
    } else if messageType == 0 {
      var c := ReadCallReducer(reader);
      m := CallReducer(c);
    } else if messageType == 2 {
      var o := ReadOneOffQuery(reader);
      m := OneOffQuery(o);
    } else if messageType == 3 {
      var s := ReadSubscribeSingle(reader);
      m := SubscribeSingle(s);
    } else if messageType == 4 {
      var s := ReadSubscribeMulti(reader);
      m := SubscribeMulti(s);
    } else if messageType == 5 {
      var u := ReadUnsubscribe(reader);
      m := Unsubscribe(u);
    } else if messageType == 6 {
      var u := ReadUnsubscribe(reader);
      m := UnsubscribeMulti(u);
    } else {
      m := UnknownClientMessage(messageType);
    }
  }

  // ---------------------------------------------------------------------
  // Writing

  /** FCallReducerData::WriteFields, on a copy of the caller's writer: the
    * bytes go into the caller's array, the caller's position stays. */
  method WriteCallReducer(c: CallReducerData, writer: BinaryWriter)
    requires Writable(CallReducer(c))
    modifies writer.data
    ensures writer.data.bytes == WriteAt(old(writer.data.bytes), writer.position, EncodeCallReducer(c))
  {
    ghost var b, p := writer.data.bytes, writer.position;
    ghost var e1, e2, e3, e4 := EncodeString(c.reducer), EncodeByteArray(c.args), EncodeUInt32(c.requestId), EncodeByte(c.flags);
    var w := new BinaryWriter.Copy(writer);
    w.WriteString(c.reducer);
    ghost var q1 := w.position;
    w.WriteArray(c.args, EncodeByte);
    WriteAtNext(b, p, e1, q1, e2);
    ghost var q2 := w.position;
    w.WriteUInt32(c.requestId);
    WriteAtNext(b, p, e1 + e2, q2, e3);
    ghost var q3 := w.position;
    w.WriteByte(c.flags);
    WriteAtNext(b, p, e1 + e2 + e3, q3, e4);
  }

  /** FSubscribeData::WriteFields, on the caller's writer itself. */
  method WriteSubscribe(s: SubscribeData, writer: BinaryWriter)
    requires Writable(Subscribe(s))
    modifies writer, writer.data
    ensures writer.data.bytes == WriteAt(old(writer.data.bytes), old(writer.position), EncodeSubscribe(s))
    ensures writer.position == old(writer.position) + |EncodeSubscribe(s)|
  {
    ghost var b, p := writer.data.bytes, writer.position;
    writer.WriteStringArray(s.queryStrings);
    ghost var q1 := writer.position;
    writer.WriteUInt32(s.requestId);
    WriteAtNext(b, p, EncodeArray(EncodeString, s.queryStrings), q1, EncodeUInt32(s.requestId));
  }

  method WriteOneOffQuery(o: OneOffQueryData, writer: BinaryWriter)
    requires Writable(OneOffQuery(o))
    modifies writer.data
    ensures writer.data.bytes == WriteAt(old(writer.data.bytes), writer.position, EncodeOneOffQuery(o))
  {
    ghost var b, p := writer.data.bytes, writer.position;
    var w := new BinaryWriter.Copy(writer);
    w.WriteArray(o.messageId, EncodeByte);
    ghost var q1 := w.position;
    w.WriteString(o.queryString);
    WriteAtNext(b, p, EncodeByteArray(o.messageId), q1, EncodeString(o.queryString));
  }

  method WriteSubscribeSingle(s: SubscribeSingleData, writer: BinaryWriter)
    requires Writable(SubscribeSingle(s))
    modifies writer.data
    ensures writer.data.bytes == WriteAt(old(writer.data.bytes), writer.position, EncodeSubscribeSingle(s))
  {
    ghost var b, p := writer.data.bytes, writer.position;
    ghost var e1, e2, e3 := EncodeString(s.query), EncodeUInt32(s.requestId), EncodeQueryId(s.queryId);
    var w := new BinaryWriter.Copy(writer);
    w.WriteString(s.query);
    ghost var q1 := w.position;
    w.WriteUInt32(s.requestId);
    WriteAtNext(b, p, e1, q1, e2);
    ghost var q2 := w.position;
    QueryIds.WriteFields(s.queryId, w);
    WriteAtNext(b, p, e1 + e2, q2, e3);
  }

  method WriteSubscribeMulti(s: SubscribeMultiData, writer: BinaryWriter)
    requires Writable(SubscribeMulti(s))
    modifies writer.data
    ensures writer.data.bytes == WriteAt(old(writer.data.bytes), writer.position, EncodeSubscribeMulti(s))
  {
    ghost var b, p := writer.data.bytes, writer.position;
    ghost var e1, e2, e3 := EncodeArray(EncodeString, s.queryStrings), EncodeUInt32(s.requestId), EncodeQueryId(s.queryId);
    var w := new BinaryWriter.Copy(writer);
    w.WriteArray(s.queryStrings, EncodeString);
    ghost var q1 := w.position;
    w.WriteUInt32(s.requestId);
    WriteAtNext(b, p, e1, q1, e2);
    ghost var q2 := w.position;
    QueryIds.WriteFields(s.queryId, w);
    WriteAtNext(b, p, e1 + e2, q2, e3);
  }

  /** FUnsubscribeData::WriteFields and FUnsubscribeMultiData::WriteFields. */
  method WriteUnsubscribe(u: UnsubscribeData, writer: BinaryWriter)
    modifies writer.data
    ensures writer.data.bytes == WriteAt(old(writer.data.bytes), writer.position, EncodeUnsubscribe(u))
  {
    ghost var b, p := writer.data.bytes, writer.position;
    var w := new BinaryWriter.Copy(writer);
    w.WriteUInt32(u.requestId);
    ghost var q1 := w.position;
    QueryIds.WriteFields(u.queryId, w);
    WriteAtNext(b, p, EncodeUInt32(u.requestId), q1, EncodeQueryId(u.queryId));
  }

  /** FClientMessage::Serialize: the tag, then the payload; an unknown tag
    * is written alone. Only Subscribe moves the caller's position past
    * the payload. */
  method Serialize(m: ClientMessage, writer: BinaryWriter)
    requires Writable(m)
    modifies writer, writer.data
    ensures writer.data.bytes == WriteAt(old(writer.data.bytes), old(writer.position), EncodeClientMessage(m))
    ensures writer.position == old(writer.position) + if m.Subscribe? then |EncodeClientMessage(m)| else 1
  {
    ghost var b, p := writer.data.bytes, writer.position;
    writer.WriteByte(Tag(m));
    ghost var q1 := writer.position;
    match m {
      case Subscribe(s) => WriteSubscribe(s, writer);
      case CallReducer(c) => WriteCallReducer(c, writer);
      case OneOffQuery(o) => WriteOneOffQuery(o, writer);
      case SubscribeSingle(s) => WriteSubscribeSingle(s, writer);
      case SubscribeMulti(s) => WriteSubscribeMulti(s, writer);
      case Unsubscribe(u) => WriteUnsubscribe(u, writer);
      case UnsubscribeMulti(u) => WriteUnsubscribe(u, writer);
      case UnknownClientMessage(_) =>
    }
    WriteAtNext(b, p, [Tag(m)], q1, EncodeFields(m));
  }
}
