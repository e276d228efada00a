/** The messages the server sends (FServerMessage.h): a tag byte, then
  * the fields of the variant the tag names. Each payload's ReadFields is a
  * pure decoder and its WriteFields a pure encoder, with the round trip
  * between them and the methods proved against them.
  *
  * Every payload is read on the caller's reader, so Deserialize leaves the
  * reader after the whole message. FServerMessage has no Serialize; the
  * encoder of a whole message below is the tag followed by the payload's
  * WriteFields, the bytes a server would send. */
module ServerMessages {
  import opened Wrappers
  import opened Bytes
  import opened Codec
  import opened WideCodec
  import opened QueryIds
  import opened BinaryReaders
  import opened BinaryWriters
  import opened ServerUpdates
  import Timestamps
  import TimeDurations
  import Identities
  import ConnectionIds

  // ---------------------------------------------------------------------
  // FInitialSubscriptionData

  /** FInitialSubscriptionData: the rows of the first subscription. */
  datatype InitialSubscriptionData = InitialSubscriptionData(databaseUpdate: DatabaseUpdate, requestId: u32, totalHostExecutionDuration: TimeDurations.TimeDuration)

  /** A value that reads back as written: a database update that reads back. */
  predicate WireInitialSubscriptionData(i: InitialSubscriptionData) {
    WireDatabaseUpdate(i.databaseUpdate)
  }

  /** What the writer demands: the database update's. */
  predicate WritableInitialSubscriptionData(i: InitialSubscriptionData) {
    WritableDatabaseUpdate(i.databaseUpdate)
  }

  /** ReadFields as a decoder: the database update, the uint32 request id, then the duration. */
  function DecodeInitialSubscriptionData(d: seq<byte>, p: nat): (r: Option<Read<InitialSubscriptionData>>)
    ensures r.Some? ==> p <= r.value.next <= |d|
  {
    var databaseUpdate :- DecodeDatabaseUpdate(d, p);
    var requestId :- DecodeUInt32(d, databaseUpdate.next);
    var totalHostExecutionDuration :- DecodeTimeDuration(d, requestId.next);
    Some(Read(InitialSubscriptionData(databaseUpdate.value, requestId.value, totalHostExecutionDuration.value), totalHostExecutionDuration.next))
  }

  /** WriteFields as an encoder: the same fields in the same order. */
  function EncodeInitialSubscriptionData(i: InitialSubscriptionData): seq<byte> {
    EncodeDatabaseUpdate(i.databaseUpdate) + EncodeUInt32(i.requestId) + EncodeTimeDuration(i.totalHostExecutionDuration)
  }

  lemma InitialSubscriptionDataParts(i: InitialSubscriptionData, d: seq<byte>, p: nat, q1: nat, q2: nat)
    requires At(d, p, EncodeDatabaseUpdate(i.databaseUpdate) + EncodeUInt32(i.requestId) + EncodeTimeDuration(i.totalHostExecutionDuration))
    requires q1 == p + |EncodeDatabaseUpdate(i.databaseUpdate)|
    requires q2 == q1 + 4
    ensures At(d, p, EncodeDatabaseUpdate(i.databaseUpdate)) && At(d, q1, EncodeUInt32(i.requestId))
    ensures At(d, q2, EncodeTimeDuration(i.totalHostExecutionDuration))
  {
    var e1, e2, e3 := EncodeDatabaseUpdate(i.databaseUpdate), EncodeUInt32(i.requestId), EncodeTimeDuration(i.totalHostExecutionDuration);
    AtNext(d, p, e1 + e2, q2, e3);
    AtNext(d, p, e1, q1, e2);
  }

  lemma InitialSubscriptionDataFieldsDecode1(i: InitialSubscriptionData, d: seq<byte>, p: nat, q1: nat, q2: nat, q3: nat)
    requires WireInitialSubscriptionData(i)
    requires At(d, p, EncodeDatabaseUpdate(i.databaseUpdate))
    requires q1 == p + |EncodeDatabaseUpdate(i.databaseUpdate)|
    ensures DecodeDatabaseUpdate(d, p) == Some(Read(i.databaseUpdate, q1))
  {
    DatabaseUpdateRoundTrip(i.databaseUpdate, d, p, q1);
  }

  lemma InitialSubscriptionDataFieldsDecode2(i: InitialSubscriptionData, d: seq<byte>, p: nat, q1: nat, q2: nat, q3: nat)
    requires WireInitialSubscriptionData(i)
    requires At(d, q1, EncodeUInt32(i.requestId)) && At(d, q2, EncodeTimeDuration(i.totalHostExecutionDuration))
    requires q2 == q1 + 4
    requires q3 == q2 + 8
    ensures DecodeUInt32(d, q1) == Some(Read(i.requestId, q2))
    ensures DecodeTimeDuration(d, q2) == Some(Read(i.totalHostExecutionDuration, q3))
  {
    UInt32RoundTrip(i.requestId, d, q1);
    TimeDurationRoundTrip(i.totalHostExecutionDuration, d, q2);
  }

  lemma InitialSubscriptionDataFieldsDecode(i: InitialSubscriptionData, d: seq<byte>, p: nat, q1: nat, q2: nat, q3: nat)
    requires WireInitialSubscriptionData(i)
    requires At(d, p, EncodeDatabaseUpdate(i.databaseUpdate)) && At(d, q1, EncodeUInt32(i.requestId))
    requires At(d, q2, EncodeTimeDuration(i.totalHostExecutionDuration))
    requires q1 == p + |EncodeDatabaseUpdate(i.databaseUpdate)|
    requires q2 == q1 + 4
    requires q3 == q2 + 8
    ensures DecodeDatabaseUpdate(d, p) == Some(Read(i.databaseUpdate, q1))
    ensures DecodeUInt32(d, q1) == Some(Read(i.requestId, q2))
    ensures DecodeTimeDuration(d, q2) == Some(Read(i.totalHostExecutionDuration, q3))
  {
    InitialSubscriptionDataFieldsDecode1(i, d, p, q1, q2, q3);
    InitialSubscriptionDataFieldsDecode2(i, d, p, q1, q2, q3);
  }

  lemma InitialSubscriptionDataOfFields(i: InitialSubscriptionData, d: seq<byte>, p: nat, q1: nat, q2: nat, q3: nat)
    requires DecodeDatabaseUpdate(d, p) == Some(Read(i.databaseUpdate, q1))
    requires DecodeUInt32(d, q1) == Some(Read(i.requestId, q2))
    requires DecodeTimeDuration(d, q2) == Some(Read(i.totalHostExecutionDuration, q3))
    ensures DecodeInitialSubscriptionData(d, p) == Some(Read(i, q3))
  {
  }

  /** Initial subscription data whose update reads back reads back as written. */
  lemma InitialSubscriptionDataRoundTrip(i: InitialSubscriptionData, d: seq<byte>, p: nat, n: nat)
    requires WireInitialSubscriptionData(i)
    requires At(d, p, EncodeInitialSubscriptionData(i))
    requires n == p + |EncodeInitialSubscriptionData(i)|
    ensures DecodeInitialSubscriptionData(d, p) == Some(Read(i, n))
  {
    var q1 := p + |EncodeDatabaseUpdate(i.databaseUpdate)|;
    var q2 := q1 + 4;
    InitialSubscriptionDataParts(i, d, p, q1, q2);
    InitialSubscriptionDataFieldsDecode(i, d, p, q1, q2, n);
    InitialSubscriptionDataOfFields(i, d, p, q1, q2, n);
  }

  /** FInitialSubscriptionData::ReadFields, on the caller's reader. */
  method ReadInitialSubscriptionData(reader: BinaryReader) returns (i: InitialSubscriptionData)
    requires reader.Valid() && DecodeInitialSubscriptionData(reader.data, reader.position).Some?
    modifies reader
    ensures reader.Valid()
    ensures DecodeInitialSubscriptionData(reader.data, old(reader.position)) == Some(Read(i, reader.position))
  {
    var databaseUpdate := ReadDatabaseUpdate(reader);
    var requestId := reader.ReadUInt32();
    var totalHostExecutionDuration := reader.ReadTimeDuration();
    i := InitialSubscriptionData(databaseUpdate, requestId, totalHostExecutionDuration);
  }

  /** FInitialSubscriptionData::WriteField, which takes the writer by value: the bytes land
    * in the caller's array at the caller's position, which stays where it
    * was. */
  method WriteInitialSubscriptionData(i: InitialSubscriptionData, writer: BinaryWriter)
    requires WritableInitialSubscriptionData(i)
    modifies writer.data
    ensures writer.data.bytes == WriteAt(old(writer.data.bytes), writer.position, EncodeInitialSubscriptionData(i))
  {
    ghost var b, p := writer.data.bytes, writer.position;
    ghost var e1, e2, e3 := EncodeDatabaseUpdate(i.databaseUpdate), EncodeUInt32(i.requestId), EncodeTimeDuration(i.totalHostExecutionDuration);
    var w := new BinaryWriter.Copy(writer);
    WriteDatabaseUpdate(i.databaseUpdate, w);
    ghost var q1 := w.position;
    w.WriteUInt32(i.requestId);
    WriteAtNext(b, p, e1, q1, e2);
    ghost var q2 := w.position;
    w.WriteTimeDuration(i.totalHostExecutionDuration);
    WriteAtNext(b, p, e1 + e2, q2, e3);
  }

  // ---------------------------------------------------------------------
  // FUpdateStatus

  /** How the reducer call behind a transaction ended. A tag naming no
    * status is read like a failure, and kept with the message read after
    * it. */
  datatype UpdateStatus =
    | Committed(update: DatabaseUpdate)
    | Failed(message: string)
    | OutOfEnergy
    | UnknownStatus(tag: byte, message: string)

  /** EStatusType: the tag byte of each variant. */
  function StatusTag(s: UpdateStatus): byte {
    match s
    case Committed(_) => 0
    case Failed(_) => 1
    case OutOfEnergy => 2
    case UnknownStatus(tag, _) => tag
  }

  /** A status that reads back as written: a known tag, a database update
    * that reads back, an ASCII message without '\0'. */
  predicate WireUpdateStatus(s: UpdateStatus) {
    match s
    case Committed(update) => WireDatabaseUpdate(update)
    case Failed(message) => WireString(message)
    case OutOfEnergy => true
    case UnknownStatus(_, _) => false
  }

  /** What the writer demands: the update's, and a message whose UTF-8
    * count fits the int32 prefix. */
  predicate WritableUpdateStatus(s: UpdateStatus) {
    match s
    case Committed(update) => WritableDatabaseUpdate(update)
    case Failed(message) => |WrittenBytes(message)| < 0x8000_0000
    case _ => true
  }

  /** ReadFields: the tag; tag 0 is followed by a database update, tag 2
    * by nothing (FStdbUnit has no fields), tag 1 and every other tag by a
    * message string. */
  function DecodeUpdateStatus(d: seq<byte>, p: nat): (r: Option<Read<UpdateStatus>>)
    ensures r.Some? ==> p <= r.value.next <= |d|
  {
    StringIsSound();
    var tag :- DecodeByte(d, p);
    if tag.value == 0 then
      var update :- DecodeDatabaseUpdate(d, tag.next);
      Some(Read(Committed(update.value), update.next))
    else if tag.value == 2 then
      Some(Read(OutOfEnergy, tag.next))
    else
      var message :- DecodeString(d, tag.next);
      Some(Read(if tag.value == 1 then Failed(message.value) else UnknownStatus(tag.value, message.value), message.next))
  }

  /** WriteFields: the tag, then the update or the message; an unknown tag
    * is written alone. */
  function EncodeUpdateStatus(s: UpdateStatus): (e: seq<byte>)
    ensures |e| >= 1 && e[0] == StatusTag(s)
  {
    match s
    case Committed(update) => EncodeByte(0) + EncodeDatabaseUpdate(update)
    case Failed(message) => EncodeByte(1) + EncodeString(message)
    case OutOfEnergy => EncodeByte(2)
    case UnknownStatus(tag, _) => EncodeByte(tag)
  }

  lemma CommittedOfFields(s: UpdateStatus, d: seq<byte>, p: nat, n: nat)
    requires s.Committed?
    requires DecodeByte(d, p) == Some(Read(0, p + 1))
    requires DecodeDatabaseUpdate(d, p + 1) == Some(Read(s.update, n))
    ensures DecodeUpdateStatus(d, p) == Some(Read(s, n))
  {
  }

  /** The database update of a committed status follows its tag. */
  lemma CommittedRoundTrip(s: UpdateStatus, d: seq<byte>, p: nat, n: nat)
    requires s.Committed? && WireDatabaseUpdate(s.update)
    requires At(d, p, EncodeByte(0) + EncodeDatabaseUpdate(s.update))
    requires n == p + 1 + |EncodeDatabaseUpdate(s.update)|
    ensures DecodeUpdateStatus(d, p) == Some(Read(s, n))
  {
    AtNext(d, p, EncodeByte(0), p + 1, EncodeDatabaseUpdate(s.update));
    ByteRoundTrip(0, d, p);
    DatabaseUpdateRoundTrip(s.update, d, p + 1, n);
    CommittedOfFields(s, d, p, n);
  }

  /** The message of a failed status follows its tag. */
  lemma FailedRoundTrip(s: UpdateStatus, d: seq<byte>, p: nat, n: nat)
    requires s.Failed? && WireString(s.message)
    requires At(d, p, EncodeByte(1) + EncodeString(s.message))
    requires n == p + 1 + |EncodeString(s.message)|
    ensures DecodeUpdateStatus(d, p) == Some(Read(s, n))
  {
    AtNext(d, p, EncodeByte(1), p + 1, EncodeString(s.message));
    ByteRoundTrip(1, d, p);
    StringRoundTrip(s.message, d, p + 1);
  }

  /** Every status with a known tag reads back as written. */
  lemma UpdateStatusRoundTrip(s: UpdateStatus, d: seq<byte>, p: nat, n: nat)
    requires WireUpdateStatus(s)
    requires At(d, p, EncodeUpdateStatus(s))
    requires n == p + |EncodeUpdateStatus(s)|
    ensures DecodeUpdateStatus(d, p) == Some(Read(s, n))
  {
    if s.Committed? {
      CommittedRoundTrip(s, d, p, n);
    } else if s.Failed? {
      FailedRoundTrip(s, d, p, n);
    } else {
      ByteRoundTrip(2, d, p);
    }
  }

  /** Any tag but 0 and 2 is followed by a message string, kept with the
    * tag when the tag is not 1. */
  lemma StatusDefaultsToMessage(d: seq<byte>, p: nat)
    requires p < |d| && d[p] != 0 && d[p] != 2
    ensures DecodeUpdateStatus(d, p).Some? <==> DecodeString(d, p + 1).Some?
    ensures DecodeUpdateStatus(d, p).Some? ==>
      var m := DecodeString(d, p + 1).value;
      DecodeUpdateStatus(d, p).value ==
        Read(if d[p] == 1 then Failed(m.value) else UnknownStatus(d[p], m.value), m.next)
  {
  }

  /** An unknown tag is written without the message it was read with, so a
    * status with such a tag does not survive the round trip. */
  lemma UnknownStatusIsLost(s: UpdateStatus, d: seq<byte>, p: nat)
    requires s.UnknownStatus? && s.tag != 0 && s.tag != 2
    requires At(d, p, EncodeUpdateStatus(s))
    ensures DecodeUpdateStatus(d, p) != Some(Read(s, p + |EncodeUpdateStatus(s)|))
  {
    var r := DecodeUpdateStatus(d, p);
    if r.Some? {
      StringReadShape(d, p + 1);
    }
  }

  /** FUpdateStatus::ReadFields, on the caller's reader. */
  method ReadUpdateStatus(reader: BinaryReader) returns (s: UpdateStatus)
    requires reader.Valid() && DecodeUpdateStatus(reader.data, reader.position).Some?
    modifies reader
    ensures reader.Valid()
    ensures DecodeUpdateStatus(reader.data, old(reader.position)) == Some(Read(s, reader.position))
  {
    var messageType := reader.ReadByte();
    if messageType == 0 {
      var update := ReadDatabaseUpdate(reader);
      s := Committed(update);
    } else if messageType == 2 {
      s := OutOfEnergy;
    } else {
      var message := reader.ReadString();
      s := if messageType == 1 then Failed(message) else UnknownStatus(messageType, message);
    }
  }

  /** FUpdateStatus::WriteFields, on the caller's writer. */
  method WriteUpdateStatus(s: UpdateStatus, writer: BinaryWriter)
    requires WritableUpdateStatus(s)
    modifies writer, writer.data
    ensures writer.data.bytes == WriteAt(old(writer.data.bytes), old(writer.position), EncodeUpdateStatus(s))
    ensures writer.position == old(writer.position) + |EncodeUpdateStatus(s)|
  {
    ghost var b, p := writer.data.bytes, writer.position;
    writer.WriteByte(StatusTag(s));
    match s {
      case Committed(update) =>
        WriteDatabaseUpdate(update, writer);
        WriteAtNext(b, p, EncodeByte(0), p + 1, EncodeDatabaseUpdate(update));
      case Failed(message) =>
        writer.WriteString(message);
        WriteAtNext(b, p, EncodeByte(1), p + 1, EncodeString(message));
      case OutOfEnergy =>
      case UnknownStatus(_, _) =>
    }
  }

  // ---------------------------------------------------------------------
  // FReducerCallInfo

  /** FReducerCallInfo: the reducer call a transaction ran. */
  datatype ReducerCallInfo = ReducerCallInfo(reducerName: string, reducerId: u32, args: seq<byte>, requestId: u32)

  /** A value that reads back as written: an ASCII name without '\0' and arguments whose count fits the int32 prefix. */
  predicate WireReducerCallInfo(c: ReducerCallInfo) {
    WireString(c.reducerName)
    && |c.args| < 0x8000_0000
  }

  /** What the writer demands: a name whose UTF-8 count and arguments whose count fit the int32 prefixes. */
  predicate WritableReducerCallInfo(c: ReducerCallInfo) {
    |WrittenBytes(c.reducerName)| < 0x8000_0000
    && |c.args| < 0x8000_0000
  }

  /** ReadFields as a decoder: the name, the uint32 reducer id, the argument bytes, then the uint32 request id. */
  function DecodeReducerCallInfo(d: seq<byte>, p: nat): (r: Option<Read<ReducerCallInfo>>)
    ensures r.Some? ==> p <= r.value.next <= |d|
  {
    PrimitivesAreSound();
    ArrayAdvances(DecodeByte);
    var reducerName :- DecodeString(d, p);
    var reducerId :- DecodeUInt32(d, reducerName.next);
    var args :- DecodeByteArray(d, reducerId.next);
    var requestId :- DecodeUInt32(d, args.next);
    Some(Read(ReducerCallInfo(reducerName.value, reducerId.value, args.value, requestId.value), requestId.next))
  }

  /** WriteFields as an encoder: the same fields in the same order. */
  function EncodeReducerCallInfo(c: ReducerCallInfo): seq<byte> {
    EncodeString(c.reducerName) + EncodeUInt32(c.reducerId) + EncodeByteArray(c.args) + EncodeUInt32(c.requestId)
  }

  lemma ReducerCallInfoParts(c: ReducerCallInfo, d: seq<byte>, p: nat, q1: nat, q2: nat, q3: nat)
    requires At(d, p, EncodeString(c.reducerName) + EncodeUInt32(c.reducerId) + EncodeByteArray(c.args) + EncodeUInt32(c.requestId))
    requires q1 == p + |EncodeString(c.reducerName)|
    requires q2 == q1 + 4
    requires q3 == q2 + |EncodeByteArray(c.args)|
    ensures At(d, p, EncodeString(c.reducerName)) && At(d, q1, EncodeUInt32(c.reducerId))
    ensures At(d, q2, EncodeByteArray(c.args)) && At(d, q3, EncodeUInt32(c.requestId))
  {
    var e1, e2, e3, e4 := EncodeString(c.reducerName), EncodeUInt32(c.reducerId), EncodeByteArray(c.args), EncodeUInt32(c.requestId);
    AtNext(d, p, e1 + e2 + e3, q3, e4);
    AtNext(d, p, e1 + e2, q2, e3);
    AtNext(d, p, e1, q1, e2);
  }

  lemma ReducerCallInfoFieldsDecode1(c: ReducerCallInfo, d: seq<byte>, p: nat, q1: nat, q2: nat, q3: nat, q4: nat)
    requires WireReducerCallInfo(c)
    requires At(d, p, EncodeString(c.reducerName)) && At(d, q1, EncodeUInt32(c.reducerId))
    requires q1 == p + |EncodeString(c.reducerName)|
    requires q2 == q1 + 4
    ensures DecodeString(d, p) == Some(Read(c.reducerName, q1))
    ensures DecodeUInt32(d, q1) == Some(Read(c.reducerId, q2))
  {
    StringRoundTrip(c.reducerName, d, p);
    UInt32RoundTrip(c.reducerId, d, q1);
  }

  lemma ReducerCallInfoFieldsDecode2(c: ReducerCallInfo, d: seq<byte>, p: nat, q1: nat, q2: nat, q3: nat, q4: nat)
    requires WireReducerCallInfo(c)
    requires At(d, q2, EncodeByteArray(c.args)) && At(d, q3, EncodeUInt32(c.requestId))
    requires q3 == q2 + |EncodeByteArray(c.args)|
    requires q4 == q3 + 4
    ensures DecodeByteArray(d, q2) == Some(Read(c.args, q3))
    ensures DecodeUInt32(d, q3) == Some(Read(c.requestId, q4))
  {
    ByteArrayRoundTrip(c.args, d, q2);
    UInt32RoundTrip(c.requestId, d, q3);
  }

  lemma ReducerCallInfoFieldsDecode(c: ReducerCallInfo, d: seq<byte>, p: nat, q1: nat, q2: nat, q3: nat, q4: nat)
    requires WireReducerCallInfo(c)
    requires At(d, p, EncodeString(c.reducerName)) && At(d, q1, EncodeUInt32(c.reducerId))
    requires At(d, q2, EncodeByteArray(c.args)) && At(d, q3, EncodeUInt32(c.requestId))
    requires q1 == p + |EncodeString(c.reducerName)|
    requires q2 == q1 + 4
    requires q3 == q2 + |EncodeByteArray(c.args)|
    requires q4 == q3 + 4
    ensures DecodeString(d, p) == Some(Read(c.reducerName, q1))
    ensures DecodeUInt32(d, q1) == Some(Read(c.reducerId, q2))
    ensures DecodeByteArray(d, q2) == Some(Read(c.args, q3))
    ensures DecodeUInt32(d, q3) == Some(Read(c.requestId, q4))
  {
    ReducerCallInfoFieldsDecode1(c, d, p, q1, q2, q3, q4);
    ReducerCallInfoFieldsDecode2(c, d, p, q1, q2, q3, q4);
  }

  lemma ReducerCallInfoOfFields(c: ReducerCallInfo, d: seq<byte>, p: nat, q1: nat, q2: nat, q3: nat, q4: nat)
    requires DecodeString(d, p) == Some(Read(c.reducerName, q1))
    requires DecodeUInt32(d, q1) == Some(Read(c.reducerId, q2))
    requires DecodeByteArray(d, q2) == Some(Read(c.args, q3))
    requires DecodeUInt32(d, q3) == Some(Read(c.requestId, q4))
    ensures DecodeReducerCallInfo(d, p) == Some(Read(c, q4))
  {
  }

  /** A reducer call with an ASCII name without '\0' reads back as written. */
  lemma ReducerCallInfoRoundTrip(c: ReducerCallInfo, d: seq<byte>, p: nat, n: nat)
    requires WireReducerCallInfo(c)
    requires At(d, p, EncodeReducerCallInfo(c))
    requires n == p + |EncodeReducerCallInfo(c)|
    ensures DecodeReducerCallInfo(d, p) == Some(Read(c, n))
  {
    var q1 := p + |EncodeString(c.reducerName)|;
    var q2 := q1 + 4;
    var q3 := q2 + |EncodeByteArray(c.args)|;
    ReducerCallInfoParts(c, d, p, q1, q2, q3);
    ReducerCallInfoFieldsDecode(c, d, p, q1, q2, q3, n);
    ReducerCallInfoOfFields(c, d, p, q1, q2, q3, n);
  }

  /** FReducerCallInfo::ReadFields, on the caller's reader. */
  method ReadReducerCallInfo(reader: BinaryReader) returns (c: ReducerCallInfo)
    requires reader.Valid() && DecodeReducerCallInfo(reader.data, reader.position).Some?
    modifies reader
    ensures reader.Valid()
    ensures DecodeReducerCallInfo(reader.data, old(reader.position)) == Some(Read(c, reader.position))
  {
    var reducerName := reader.ReadString();
    var reducerId := reader.ReadUInt32();
    PrimitivesAreSound();
    var args := reader.ReadArray(DecodeByte);
    var requestId := reader.ReadUInt32();
    c := ReducerCallInfo(reducerName, reducerId, args, requestId);
  }

  /** FReducerCallInfo::WriteFields, on the caller's writer. */
  method WriteReducerCallInfo(c: ReducerCallInfo, writer: BinaryWriter)
    requires WritableReducerCallInfo(c)
    modifies writer, writer.data
    ensures writer.data.bytes == WriteAt(old(writer.data.bytes), old(writer.position), EncodeReducerCallInfo(c))
    ensures writer.position == old(writer.position) + |EncodeReducerCallInfo(c)|
  {
    ghost var b, p := writer.data.bytes, writer.position;
    ghost var e1, e2, e3, e4 := EncodeString(c.reducerName), EncodeUInt32(c.reducerId), EncodeByteArray(c.args), EncodeUInt32(c.requestId);
    writer.WriteString(c.reducerName);
    ghost var q1 := writer.position;
    writer.WriteUInt32(c.reducerId);
    WriteAtNext(b, p, e1, q1, e2);
    ghost var q2 := writer.position;
    writer.WriteArray(c.args, EncodeByte);
    WriteAtNext(b, p, e1 + e2, q2, e3);
    ghost var q3 := writer.position;
    writer.WriteUInt32(c.requestId);
    WriteAtNext(b, p, e1 + e2 + e3, q3, e4);
  }

  // ---------------------------------------------------------------------
  // FEnergyQuanta

  /** FEnergyQuanta: the energy a transaction used, a 128-bit count. */
  datatype EnergyQuanta = EnergyQuanta(quanta: U128)

  /** ReadFields as a decoder: the sixteen bytes of the count. */
  function DecodeEnergyQuanta(d: seq<byte>, p: nat): (r: Option<Read<EnergyQuanta>>)
    ensures r.Some? ==> p <= r.value.next <= |d|
  {
    var quanta :- DecodeU128(d, p);
    Some(Read(EnergyQuanta(quanta.value), quanta.next))
  }

  /** WriteFields as an encoder: the same fields in the same order. */
  function EncodeEnergyQuanta(e: EnergyQuanta): seq<byte> {
    EncodeU128(e.quanta)
  }

  /** Every energy count reads back as written. */
  lemma EnergyQuantaRoundTrip(e: EnergyQuanta, d: seq<byte>, p: nat, n: nat)
    requires At(d, p, EncodeEnergyQuanta(e))
    requires n == p + |EncodeEnergyQuanta(e)|
    ensures DecodeEnergyQuanta(d, p) == Some(Read(e, n))
  {
    U128RoundTrip(e.quanta, d, p);
  }

  /** FEnergyQuanta::ReadFields, on the caller's reader. */
  method ReadEnergyQuanta(reader: BinaryReader) returns (e: EnergyQuanta)
    requires reader.Valid() && DecodeEnergyQuanta(reader.data, reader.position).Some?
    modifies reader
    ensures reader.Valid()
    ensures DecodeEnergyQuanta(reader.data, old(reader.position)) == Some(Read(e, reader.position))
  {
    var quanta := reader.ReadU128();
    e := EnergyQuanta(quanta);
  }

  /** FEnergyQuanta::WriteFields, on the caller's writer. */
  method WriteEnergyQuanta(e: EnergyQuanta, writer: BinaryWriter)
    modifies writer, writer.data
    ensures writer.data.bytes == WriteAt(old(writer.data.bytes), old(writer.position), EncodeEnergyQuanta(e))
    ensures writer.position == old(writer.position) + |EncodeEnergyQuanta(e)|
  {
    writer.WriteU128(e.quanta);
  }

  // ---------------------------------------------------------------------
  // FTransactionUpdateData

  /** FTransactionUpdateData: a transaction and everything the server reports about it. */
  datatype TransactionUpdateData = TransactionUpdateData(status: UpdateStatus, timestamp: Timestamps.Timestamp, callerIdentity: Identities.Identity, callerConnectionId: ConnectionIds.ConnectionId, reducerCall: ReducerCallInfo, energyQuantaUsed: EnergyQuanta, totalHostExecutionDuration: TimeDurations.TimeDuration)

  /** A value that reads back as written: a status and a reducer call that read back. */
  predicate WireTransactionUpdateData(t: TransactionUpdateData) {
    WireUpdateStatus(t.status)
    && WireReducerCallInfo(t.reducerCall)
  }

  /** What the writer demands: the status's and the reducer call's. */
  predicate WritableTransactionUpdateData(t: TransactionUpdateData) {
    WritableUpdateStatus(t.status)
    && WritableReducerCallInfo(t.reducerCall)
  }

  /** ReadFields as a decoder: the status, the timestamp, the caller's identity and connection id, the reducer call, the energy used, then the duration. */
  function DecodeTransactionUpdateData(d: seq<byte>, p: nat): (r: Option<Read<TransactionUpdateData>>)
    ensures r.Some? ==> p <= r.value.next <= |d|
  {
    var status :- DecodeUpdateStatus(d, p);
    var timestamp :- DecodeTimestamp(d, status.next);
    var callerIdentity :- DecodeIdentity(d, timestamp.next);
    var callerConnectionId :- DecodeConnectionId(d, callerIdentity.next);
    var reducerCall :- DecodeReducerCallInfo(d, callerConnectionId.next);
    var energyQuantaUsed :- DecodeEnergyQuanta(d, reducerCall.next);
    var totalHostExecutionDuration :- DecodeTimeDuration(d, energyQuantaUsed.next);
    Some(Read(TransactionUpdateData(status.value, timestamp.value, callerIdentity.value, callerConnectionId.value, reducerCall.value, energyQuantaUsed.value, totalHostExecutionDuration.value), totalHostExecutionDuration.next))
  }

  /** WriteFields as an encoder: the same fields in the same order. */
  function EncodeTransactionUpdateData(t: TransactionUpdateData): seq<byte> {
    EncodeUpdateStatus(t.status) + EncodeTimestamp(t.timestamp) + EncodeIdentity(t.callerIdentity) + EncodeConnectionId(t.callerConnectionId) + EncodeReducerCallInfo(t.reducerCall) + EncodeEnergyQuanta(t.energyQuantaUsed) + EncodeTimeDuration(t.totalHostExecutionDuration)
  }

  lemma TransactionUpdateDataParts(t: TransactionUpdateData, d: seq<byte>, p: nat, q1: nat, q2: nat, q3: nat, q4: nat, q5: nat, q6: nat)
    requires At(d, p, EncodeUpdateStatus(t.status) + EncodeTimestamp(t.timestamp) + EncodeIdentity(t.callerIdentity) + EncodeConnectionId(t.callerConnectionId) + EncodeReducerCallInfo(t.reducerCall) + EncodeEnergyQuanta(t.energyQuantaUsed) + EncodeTimeDuration(t.totalHostExecutionDuration))
    requires q1 == p + |EncodeUpdateStatus(t.status)|
    requires q2 == q1 + 8
    requires q3 == q2 + 32
    requires q4 == q3 + 16
    requires q5 == q4 + |EncodeReducerCallInfo(t.reducerCall)|
    requires q6 == q5 + |EncodeEnergyQuanta(t.energyQuantaUsed)|
    ensures At(d, p, EncodeUpdateStatus(t.status)) && At(d, q1, EncodeTimestamp(t.timestamp))
    ensures At(d, q2, EncodeIdentity(t.callerIdentity)) && At(d, q3, EncodeConnectionId(t.callerConnectionId))
    ensures At(d, q4, EncodeReducerCallInfo(t.reducerCall)) && At(d, q5, EncodeEnergyQuanta(t.energyQuantaUsed))
    ensures At(d, q6, EncodeTimeDuration(t.totalHostExecutionDuration))
  {
    var e1, e2, e3, e4, e5, e6, e7 := EncodeUpdateStatus(t.status), EncodeTimestamp(t.timestamp), EncodeIdentity(t.callerIdentity), EncodeConnectionId(t.callerConnectionId), EncodeReducerCallInfo(t.reducerCall), EncodeEnergyQuanta(t.energyQuantaUsed), EncodeTimeDuration(t.totalHostExecutionDuration);
    AtNext(d, p, e1 + e2 + e3 + e4 + e5 + e6, q6, e7);
    AtNext(d, p, e1 + e2 + e3 + e4 + e5, q5, e6);
    AtNext(d, p, e1 + e2 + e3 + e4, q4, e5);
    AtNext(d, p, e1 + e2 + e3, q3, e4);
    AtNext(d, p, e1 + e2, q2, e3);
    AtNext(d, p, e1, q1, e2);
  }

  lemma TransactionUpdateDataFieldsDecode1(t: TransactionUpdateData, d: seq<byte>, p: nat, q1: nat, q2: nat, q3: nat, q4: nat, q5: nat, q6: nat, q7: nat)
    requires WireTransactionUpdateData(t)
    requires At(d, p, EncodeUpdateStatus(t.status))
    requires q1 == p + |EncodeUpdateStatus(t.status)|
    ensures DecodeUpdateStatus(d, p) == Some(Read(t.status, q1))
  {
    UpdateStatusRoundTrip(t.status, d, p, q1);
  }

  lemma TransactionUpdateDataFieldsDecode2(t: TransactionUpdateData, d: seq<byte>, p: nat, q1: nat, q2: nat, q3: nat, q4: nat, q5: nat, q6: nat, q7: nat)
    requires WireTransactionUpdateData(t)
    requires At(d, q1, EncodeTimestamp(t.timestamp)) && At(d, q2, EncodeIdentity(t.callerIdentity))
    requires q2 == q1 + 8
    requires q3 == q2 + 32
    ensures DecodeTimestamp(d, q1) == Some(Read(t.timestamp, q2))
    ensures DecodeIdentity(d, q2) == Some(Read(t.callerIdentity, q3))
  {
    TimestampRoundTrip(t.timestamp, d, q1);
    IdentityRoundTrip(t.callerIdentity, d, q2);
  }

  lemma TransactionUpdateDataFieldsDecode3(t: TransactionUpdateData, d: seq<byte>, p: nat, q1: nat, q2: nat, q3: nat, q4: nat, q5: nat, q6: nat, q7: nat)
    requires WireTransactionUpdateData(t)
    requires At(d, q3, EncodeConnectionId(t.callerConnectionId))
    requires q4 == q3 + 16
    ensures DecodeConnectionId(d, q3) == Some(Read(t.callerConnectionId, q4))
  {
    ConnectionIdRoundTrip(t.callerConnectionId, d, q3);
  }

  lemma TransactionUpdateDataFieldsDecode4(t: TransactionUpdateData, d: seq<byte>, p: nat, q1: nat, q2: nat, q3: nat, q4: nat, q5: nat, q6: nat, q7: nat)
    requires WireTransactionUpdateData(t)
    requires At(d, q4, EncodeReducerCallInfo(t.reducerCall))
    requires q5 == q4 + |EncodeReducerCallInfo(t.reducerCall)|
    ensures DecodeReducerCallInfo(d, q4) == Some(Read(t.reducerCall, q5))
  {
    ReducerCallInfoRoundTrip(t.reducerCall, d, q4, q5);
  }

  lemma TransactionUpdateDataFieldsDecode5(t: TransactionUpdateData, d: seq<byte>, p: nat, q1: nat, q2: nat, q3: nat, q4: nat, q5: nat, q6: nat, q7: nat)
    requires WireTransactionUpdateData(t)
    requires At(d, q5, EncodeEnergyQuanta(t.energyQuantaUsed))
    requires q6 == q5 + |EncodeEnergyQuanta(t.energyQuantaUsed)|
    ensures DecodeEnergyQuanta(d, q5) == Some(Read(t.energyQuantaUsed, q6))
  {
    EnergyQuantaRoundTrip(t.energyQuantaUsed, d, q5, q6);
  }

  lemma TransactionUpdateDataFieldsDecode6(t: TransactionUpdateData, d: seq<byte>, p: nat, q1: nat, q2: nat, q3: nat, q4: nat, q5: nat, q6: nat, q7: nat)
    requires WireTransactionUpdateData(t)
    requires At(d, q6, EncodeTimeDuration(t.totalHostExecutionDuration))
    requires q7 == q6 + 8
    ensures DecodeTimeDuration(d, q6) == Some(Read(t.totalHostExecutionDuration, q7))
  {
    TimeDurationRoundTrip(t.totalHostExecutionDuration, d, q6);
  }

  lemma TransactionUpdateDataFieldsDecode(t: TransactionUpdateData, d: seq<byte>, p: nat, q1: nat, q2: nat, q3: nat, q4: nat, q5: nat, q6: nat, q7: nat)
    requires WireTransactionUpdateData(t)
    requires At(d, p, EncodeUpdateStatus(t.status)) && At(d, q1, EncodeTimestamp(t.timestamp))
    requires At(d, q2, EncodeIdentity(t.callerIdentity)) && At(d, q3, EncodeConnectionId(t.callerConnectionId))
    requires At(d, q4, EncodeReducerCallInfo(t.reducerCall)) && At(d, q5, EncodeEnergyQuanta(t.energyQuantaUsed))
    requires At(d, q6, EncodeTimeDuration(t.totalHostExecutionDuration))
    requires q1 == p + |EncodeUpdateStatus(t.status)|
    requires q2 == q1 + 8
    requires q3 == q2 + 32
    requires q4 == q3 + 16
    requires q5 == q4 + |EncodeReducerCallInfo(t.reducerCall)|
    requires q6 == q5 + |EncodeEnergyQuanta(t.energyQuantaUsed)|
    requires q7 == q6 + 8
    ensures DecodeUpdateStatus(d, p) == Some(Read(t.status, q1))
    ensures DecodeTimestamp(d, q1) == Some(Read(t.timestamp, q2))
    ensures DecodeIdentity(d, q2) == Some(Read(t.callerIdentity, q3))
    ensures DecodeConnectionId(d, q3) == Some(Read(t.callerConnectionId, q4))
    ensures DecodeReducerCallInfo(d, q4) == Some(Read(t.reducerCall, q5))
    ensures DecodeEnergyQuanta(d, q5) == Some(Read(t.energyQuantaUsed, q6))
    ensures DecodeTimeDuration(d, q6) == Some(Read(t.totalHostExecutionDuration, q7))
  {
    TransactionUpdateDataFieldsDecode1(t, d, p, q1, q2, q3, q4, q5, q6, q7);
    TransactionUpdateDataFieldsDecode2(t, d, p, q1, q2, q3, q4, q5, q6, q7);
    TransactionUpdateDataFieldsDecode3(t, d, p, q1, q2, q3, q4, q5, q6, q7);
    TransactionUpdateDataFieldsDecode4(t, d, p, q1, q2, q3, q4, q5, q6, q7);
    TransactionUpdateDataFieldsDecode5(t, d, p, q1, q2, q3, q4, q5, q6, q7);
    TransactionUpdateDataFieldsDecode6(t, d, p, q1, q2, q3, q4, q5, q6, q7);
  }

  lemma TransactionUpdateDataOfFields(t: TransactionUpdateData, d: seq<byte>, p: nat, q1: nat, q2: nat, q3: nat, q4: nat, q5: nat, q6: nat, q7: nat)
    requires DecodeUpdateStatus(d, p) == Some(Read(t.status, q1))
    requires DecodeTimestamp(d, q1) == Some(Read(t.timestamp, q2))
    requires DecodeIdentity(d, q2) == Some(Read(t.callerIdentity, q3))
    requires DecodeConnectionId(d, q3) == Some(Read(t.callerConnectionId, q4))
    requires DecodeReducerCallInfo(d, q4) == Some(Read(t.reducerCall, q5))
    requires DecodeEnergyQuanta(d, q5) == Some(Read(t.energyQuantaUsed, q6))
    requires DecodeTimeDuration(d, q6) == Some(Read(t.totalHostExecutionDuration, q7))
    ensures DecodeTransactionUpdateData(d, p) == Some(Read(t, q7))
  {
  }

  /** Write mirrors read field by field, so a transaction update with a known status and ASCII strings without '\0' reads back as written. */
  lemma TransactionUpdateDataRoundTrip(t: TransactionUpdateData, d: seq<byte>, p: nat, n: nat)
    requires WireTransactionUpdateData(t)
    requires At(d, p, EncodeTransactionUpdateData(t))
    requires n == p + |EncodeTransactionUpdateData(t)|
    ensures DecodeTransactionUpdateData(d, p) == Some(Read(t, n))
  {
    var q1 := p + |EncodeUpdateStatus(t.status)|;
    var q2 := q1 + 8;
    var q3 := q2 + 32;
    var q4 := q3 + 16;
    var q5 := q4 + |EncodeReducerCallInfo(t.reducerCall)|;
    var q6 := q5 + |EncodeEnergyQuanta(t.energyQuantaUsed)|;
    TransactionUpdateDataParts(t, d, p, q1, q2, q3, q4, q5, q6);
    TransactionUpdateDataFieldsDecode(t, d, p, q1, q2, q3, q4, q5, q6, n);
    TransactionUpdateDataOfFields(t, d, p, q1, q2, q3, q4, q5, q6, n);
  }

  /** FTransactionUpdateData::ReadFields, on the caller's reader. */
  method ReadTransactionUpdateData(reader: BinaryReader) returns (t: TransactionUpdateData)
    requires reader.Valid() && DecodeTransactionUpdateData(reader.data, reader.position).Some?
    modifies reader
    ensures reader.Valid()
    ensures DecodeTransactionUpdateData(reader.data, old(reader.position)) == Some(Read(t, reader.position))
  {
    var status := ReadUpdateStatus(reader);
    var timestamp := reader.ReadTimestamp();
    var callerIdentity := reader.ReadIdentity();
    var callerConnectionId := reader.ReadConnectionId();
    var reducerCall := ReadReducerCallInfo(reader);
    var energyQuantaUsed := ReadEnergyQuanta(reader);
    var totalHostExecutionDuration := reader.ReadTimeDuration();
    t := TransactionUpdateData(status, timestamp, callerIdentity, callerConnectionId, reducerCall, energyQuantaUsed, totalHostExecutionDuration);
  }

  /** FTransactionUpdateData::WriteFields, on the caller's writer. */
  method WriteTransactionUpdateData(t: TransactionUpdateData, writer: BinaryWriter)
    requires WritableTransactionUpdateData(t)
    modifies writer, writer.data
    ensures writer.data.bytes == WriteAt(old(writer.data.bytes), old(writer.position), EncodeTransactionUpdateData(t))
    ensures writer.position == old(writer.position) + |EncodeTransactionUpdateData(t)|
  {
    ghost var b, p := writer.data.bytes, writer.position;
    ghost var e1, e2, e3, e4, e5, e6, e7 := EncodeUpdateStatus(t.status), EncodeTimestamp(t.timestamp), EncodeIdentity(t.callerIdentity), EncodeConnectionId(t.callerConnectionId), EncodeReducerCallInfo(t.reducerCall), EncodeEnergyQuanta(t.energyQuantaUsed), EncodeTimeDuration(t.totalHostExecutionDuration);
    WriteUpdateStatus(t.status, writer);
    ghost var q1 := writer.position;
    writer.WriteTimestamp(t.timestamp);
    WriteAtNext(b, p, e1, q1, e2);
    ghost var q2 := writer.position;
    writer.WriteIdentity(t.callerIdentity);
    WriteAtNext(b, p, e1 + e2, q2, e3);
    ghost var q3 := writer.position;
    writer.WriteConnectionId(t.callerConnectionId);
    WriteAtNext(b, p, e1 + e2 + e3, q3, e4);
    ghost var q4 := writer.position;
    WriteReducerCallInfo(t.reducerCall, writer);
    WriteAtNext(b, p, e1 + e2 + e3 + e4, q4, e5);
    ghost var q5 := writer.position;
    WriteEnergyQuanta(t.energyQuantaUsed, writer);
    WriteAtNext(b, p, e1 + e2 + e3 + e4 + e5, q5, e6);
    ghost var q6 := writer.position;
    writer.WriteTimeDuration(t.totalHostExecutionDuration);
    WriteAtNext(b, p, e1 + e2 + e3 + e4 + e5 + e6, q6, e7);
  }

  // ---------------------------------------------------------------------
  // FTransactionUpdateLightData

  /** FTransactionUpdateLightData: a transaction's row changes only. */
  datatype TransactionUpdateLightData = TransactionUpdateLightData(requestId: u32, update: DatabaseUpdate)

  /** A value that reads back as written: an update that reads back. */
  predicate WireTransactionUpdateLightData(t: TransactionUpdateLightData) {
    WireDatabaseUpdate(t.update)
  }

  /** What the writer demands: the update's. */
  predicate WritableTransactionUpdateLightData(t: TransactionUpdateLightData) {
    WritableDatabaseUpdate(t.update)
  }

  /** ReadFields as a decoder: the uint32 request id, then the database update. */
  function DecodeTransactionUpdateLightData(d: seq<byte>, p: nat): (r: Option<Read<TransactionUpdateLightData>>)
    ensures r.Some? ==> p <= r.value.next <= |d|
  {
    var requestId :- DecodeUInt32(d, p);
    var update :- DecodeDatabaseUpdate(d, requestId.next);
    Some(Read(TransactionUpdateLightData(requestId.value, update.value), update.next))
  }

  /** WriteFields as an encoder: the same fields in the same order. */
  function EncodeTransactionUpdateLightData(t: TransactionUpdateLightData): seq<byte> {
    EncodeUInt32(t.requestId) + EncodeDatabaseUpdate(t.update)
  }

  lemma TransactionUpdateLightDataParts(t: TransactionUpdateLightData, d: seq<byte>, p: nat, q1: nat)
    requires At(d, p, EncodeUInt32(t.requestId) + EncodeDatabaseUpdate(t.update))
    requires q1 == p + 4
    ensures At(d, p, EncodeUInt32(t.requestId)) && At(d, q1, EncodeDatabaseUpdate(t.update))
  {
    var e1, e2 := EncodeUInt32(t.requestId), EncodeDatabaseUpdate(t.update);
    AtNext(d, p, e1, q1, e2);
  }

  lemma TransactionUpdateLightDataFieldsDecode1(t: TransactionUpdateLightData, d: seq<byte>, p: nat, q1: nat, q2: nat)
    requires WireTransactionUpdateLightData(t)
    requires At(d, p, EncodeUInt32(t.requestId))
    requires q1 == p + 4
    ensures DecodeUInt32(d, p) == Some(Read(t.requestId, q1))
  {
    UInt32RoundTrip(t.requestId, d, p);
  }

  lemma TransactionUpdateLightDataFieldsDecode2(t: TransactionUpdateLightData, d: seq<byte>, p: nat, q1: nat, q2: nat)
    requires WireTransactionUpdateLightData(t)
    requires At(d, q1, EncodeDatabaseUpdate(t.update))
    requires q2 == q1 + |EncodeDatabaseUpdate(t.update)|
    ensures DecodeDatabaseUpdate(d, q1) == Some(Read(t.update, q2))
  {
    DatabaseUpdateRoundTrip(t.update, d, q1, q2);
  }

  lemma TransactionUpdateLightDataFieldsDecode(t: TransactionUpdateLightData, d: seq<byte>, p: nat, q1: nat, q2: nat)
    requires WireTransactionUpdateLightData(t)
    requires At(d, p, EncodeUInt32(t.requestId)) && At(d, q1, EncodeDatabaseUpdate(t.update))
    requires q1 == p + 4
    requires q2 == q1 + |EncodeDatabaseUpdate(t.update)|
    ensures DecodeUInt32(d, p) == Some(Read(t.requestId, q1))
    ensures DecodeDatabaseUpdate(d, q1) == Some(Read(t.update, q2))
  {
    TransactionUpdateLightDataFieldsDecode1(t, d, p, q1, q2);
    TransactionUpdateLightDataFieldsDecode2(t, d, p, q1, q2);
  }

  lemma TransactionUpdateLightDataOfFields(t: TransactionUpdateLightData, d: seq<byte>, p: nat, q1: nat, q2: nat)
    requires DecodeUInt32(d, p) == Some(Read(t.requestId, q1))
    requires DecodeDatabaseUpdate(d, q1) == Some(Read(t.update, q2))
    ensures DecodeTransactionUpdateLightData(d, p) == Some(Read(t, q2))
  {
  }

  /** A light transaction update whose update reads back reads back as written. */
  lemma TransactionUpdateLightDataRoundTrip(t: TransactionUpdateLightData, d: seq<byte>, p: nat, n: nat)
    requires WireTransactionUpdateLightData(t)
    requires At(d, p, EncodeTransactionUpdateLightData(t))
    requires n == p + |EncodeTransactionUpdateLightData(t)|
    ensures DecodeTransactionUpdateLightData(d, p) == Some(Read(t, n))
  {
    var q1 := p + 4;
    TransactionUpdateLightDataParts(t, d, p, q1);
    TransactionUpdateLightDataFieldsDecode(t, d, p, q1, n);
    TransactionUpdateLightDataOfFields(t, d, p, q1, n);
  }

  /** FTransactionUpdateLightData::ReadFields, on the caller's reader. */
  method ReadTransactionUpdateLightData(reader: BinaryReader) returns (t: TransactionUpdateLightData)
    requires reader.Valid() && DecodeTransactionUpdateLightData(reader.data, reader.position).Some?
    modifies reader
    ensures reader.Valid()
    ensures DecodeTransactionUpdateLightData(reader.data, old(reader.position)) == Some(Read(t, reader.position))
  {
    var requestId := reader.ReadUInt32();
    var update := ReadDatabaseUpdate(reader);
    t := TransactionUpdateLightData(requestId, update);
  }

  /** FTransactionUpdateLightData::WriteFields, on the caller's writer. */
  method WriteTransactionUpdateLightData(t: TransactionUpdateLightData, writer: BinaryWriter)
    requires WritableTransactionUpdateLightData(t)
    modifies writer, writer.data
    ensures writer.data.bytes == WriteAt(old(writer.data.bytes), old(writer.position), EncodeTransactionUpdateLightData(t))
    ensures writer.position == old(writer.position) + |EncodeTransactionUpdateLightData(t)|
  {
    ghost var b, p := writer.data.bytes, writer.position;
    ghost var e1, e2 := EncodeUInt32(t.requestId), EncodeDatabaseUpdate(t.update);
    writer.WriteUInt32(t.requestId);
    ghost var q1 := writer.position;
    WriteDatabaseUpdate(t.update, writer);
    WriteAtNext(b, p, e1, q1, e2);
  }

  // ---------------------------------------------------------------------
  // FIdentityTokenData

  /** FIdentityTokenData: who the client is, its token and its connection id. */
  datatype IdentityTokenData = IdentityTokenData(identity: Identities.Identity, token: string, connectionId: ConnectionIds.ConnectionId)

  /** A value that reads back as written: an ASCII token without '\0'. */
  predicate WireIdentityTokenData(t: IdentityTokenData) {
    WireString(t.token)
  }

  /** What the writer demands: a token whose UTF-8 count fits the int32 prefix. */
  predicate WritableIdentityTokenData(t: IdentityTokenData) {
    |WrittenBytes(t.token)| < 0x8000_0000
  }

  /** ReadFields as a decoder: the identity, the token, then the connection id. */
  function DecodeIdentityTokenData(d: seq<byte>, p: nat): (r: Option<Read<IdentityTokenData>>)
    ensures r.Some? ==> p <= r.value.next <= |d|
  {
    var identity :- DecodeIdentity(d, p);
    var token :- DecodeString(d, identity.next);
    var connectionId :- DecodeConnectionId(d, token.next);
    Some(Read(IdentityTokenData(identity.value, token.value, connectionId.value), connectionId.next))
  }

  /** WriteFields as an encoder: the same fields in the same order. */
  function EncodeIdentityTokenData(t: IdentityTokenData): seq<byte> {
    EncodeIdentity(t.identity) + EncodeString(t.token) + EncodeConnectionId(t.connectionId)
  }

  lemma IdentityTokenDataParts(t: IdentityTokenData, d: seq<byte>, p: nat, q1: nat, q2: nat)
    requires At(d, p, EncodeIdentity(t.identity) + EncodeString(t.token) + EncodeConnectionId(t.connectionId))
    requires q1 == p + 32
    requires q2 == q1 + |EncodeString(t.token)|
    ensures At(d, p, EncodeIdentity(t.identity)) && At(d, q1, EncodeString(t.token))
    ensures At(d, q2, EncodeConnectionId(t.connectionId))
  {
    var e1, e2, e3 := EncodeIdentity(t.identity), EncodeString(t.token), EncodeConnectionId(t.connectionId);
    AtNext(d, p, e1 + e2, q2, e3);
    AtNext(d, p, e1, q1, e2);
  }

  lemma IdentityTokenDataFieldsDecode1(t: IdentityTokenData, d: seq<byte>, p: nat, q1: nat, q2: nat, q3: nat)
    requires WireIdentityTokenData(t)
    requires At(d, p, EncodeIdentity(t.identity)) && At(d, q1, EncodeString(t.token))
    requires q1 == p + 32
    requires q2 == q1 + |EncodeString(t.token)|
    ensures DecodeIdentity(d, p) == Some(Read(t.identity, q1))
    ensures DecodeString(d, q1) == Some(Read(t.token, q2))
  {
    IdentityRoundTrip(t.identity, d, p);
    StringRoundTrip(t.token, d, q1);
  }

  lemma IdentityTokenDataFieldsDecode2(t: IdentityTokenData, d: seq<byte>, p: nat, q1: nat, q2: nat, q3: nat)
    requires WireIdentityTokenData(t)
    requires At(d, q2, EncodeConnectionId(t.connectionId))
    requires q3 == q2 + 16
    ensures DecodeConnectionId(d, q2) == Some(Read(t.connectionId, q3))
  {
    ConnectionIdRoundTrip(t.connectionId, d, q2);
  }

  lemma IdentityTokenDataFieldsDecode(t: IdentityTokenData, d: seq<byte>, p: nat, q1: nat, q2: nat, q3: nat)
    requires WireIdentityTokenData(t)
    requires At(d, p, EncodeIdentity(t.identity)) && At(d, q1, EncodeString(t.token))
    requires At(d, q2, EncodeConnectionId(t.connectionId))
    requires q1 == p + 32
    requires q2 == q1 + |EncodeString(t.token)|
    requires q3 == q2 + 16
    ensures DecodeIdentity(d, p) == Some(Read(t.identity, q1))
    ensures DecodeString(d, q1) == Some(Read(t.token, q2))
    ensures DecodeConnectionId(d, q2) == Some(Read(t.connectionId, q3))
  {
    IdentityTokenDataFieldsDecode1(t, d, p, q1, q2, q3);
    IdentityTokenDataFieldsDecode2(t, d, p, q1, q2, q3);
  }

  lemma IdentityTokenDataOfFields(t: IdentityTokenData, d: seq<byte>, p: nat, q1: nat, q2: nat, q3: nat)
    requires DecodeIdentity(d, p) == Some(Read(t.identity, q1))
    requires DecodeString(d, q1) == Some(Read(t.token, q2))
    requires DecodeConnectionId(d, q2) == Some(Read(t.connectionId, q3))
    ensures DecodeIdentityTokenData(d, p) == Some(Read(t, q3))
  {
  }

  /** An identity token with an ASCII token without '\0' reads back as written. */
  lemma IdentityTokenDataRoundTrip(t: IdentityTokenData, d: seq<byte>, p: nat, n: nat)
    requires WireIdentityTokenData(t)
    requires At(d, p, EncodeIdentityTokenData(t))
    requires n == p + |EncodeIdentityTokenData(t)|
    ensures DecodeIdentityTokenData(d, p) == Some(Read(t, n))
  {
    var q1 := p + 32;
    var q2 := q1 + |EncodeString(t.token)|;
    IdentityTokenDataParts(t, d, p, q1, q2);
    IdentityTokenDataFieldsDecode(t, d, p, q1, q2, n);
    IdentityTokenDataOfFields(t, d, p, q1, q2, n);
  }

  /** FIdentityTokenData::ReadFields, on the caller's reader. */
  method ReadIdentityTokenData(reader: BinaryReader) returns (t: IdentityTokenData)
    requires reader.Valid() && DecodeIdentityTokenData(reader.data, reader.position).Some?
    modifies reader
    ensures reader.Valid()
    ensures DecodeIdentityTokenData(reader.data, old(reader.position)) == Some(Read(t, reader.position))
  {
    var identity := reader.ReadIdentity();
    var token := reader.ReadString();
    var connectionId := reader.ReadConnectionId();
    t := IdentityTokenData(identity, token, connectionId);
  }

  /** FIdentityTokenData::WriteField, which takes the writer by value: the bytes land
    * in the caller's array at the caller's position, which stays where it
    * was. */
  method WriteIdentityTokenData(t: IdentityTokenData, writer: BinaryWriter)
    requires WritableIdentityTokenData(t)
    modifies writer.data
    ensures writer.data.bytes == WriteAt(old(writer.data.bytes), writer.position, EncodeIdentityTokenData(t))
  {
    ghost var b, p := writer.data.bytes, writer.position;
    ghost var e1, e2, e3 := EncodeIdentity(t.identity), EncodeString(t.token), EncodeConnectionId(t.connectionId);
    var w := new BinaryWriter.Copy(writer);
    w.WriteIdentity(t.identity);
    ghost var q1 := w.position;
    w.WriteString(t.token);
    WriteAtNext(b, p, e1, q1, e2);
    ghost var q2 := w.position;
    w.WriteConnectionId(t.connectionId);
    WriteAtNext(b, p, e1 + e2, q2, e3);
  }

  // ---------------------------------------------------------------------
  // FOneOffQueryResponseData

  /** FOneOffQueryResponseData: the answer to a one-off query. */
  datatype OneOffQueryResponseData = OneOffQueryResponseData(messageId: seq<byte>, error: Option<string>, tables: seq<OneOffTable>, totalHostExecutionDuration: TimeDurations.TimeDuration)

  /** A value that reads back as written: counts that fit the int32 prefixes, an ASCII error without '\0' and tables that read back. */
  predicate WireOneOffQueryResponseData(o: OneOffQueryResponseData) {
    |o.messageId| < 0x8000_0000
    && (o.error.Some? ==> WireString(o.error.value))
    && |o.tables| < 0x8000_0000 && (forall i :: 0 <= i < |o.tables| ==> WireOneOffTable(o.tables[i]))
  }

  /** What the writer demands: counts that fit the int32 prefixes. */
  predicate WritableOneOffQueryResponseData(o: OneOffQueryResponseData) {
    |o.messageId| < 0x8000_0000
    && |o.tables| < 0x8000_0000
  }

  /** ReadFields as a decoder: the message id bytes, the optional error, the tables, then the duration. */
  function DecodeOneOffQueryResponseData(d: seq<byte>, p: nat): (r: Option<Read<OneOffQueryResponseData>>)
    ensures r.Some? ==> p <= r.value.next <= |d|
  {
    PrimitivesAreSound();
    ArrayAdvances(DecodeByte);
    OneOffTableIsSound();
    ArrayAdvances(DecodeOneOffTable);
    var messageId :- DecodeByteArray(d, p);
    var error :- DecodeOptional(DecodeString, d, messageId.next);
    var tables :- DecodeArray(DecodeOneOffTable, d, error.next);
    var totalHostExecutionDuration :- DecodeTimeDuration(d, tables.next);
    Some(Read(OneOffQueryResponseData(messageId.value, error.value, tables.value, totalHostExecutionDuration.value), totalHostExecutionDuration.next))
  }

  /** WriteFields as an encoder: the same fields in the same order. */
  function EncodeOneOffQueryResponseData(o: OneOffQueryResponseData): seq<byte> {
    EncodeByteArray(o.messageId) + EncodeOptional(EncodeString, o.error) + EncodeArray(EncodeOneOffTable, o.tables) + EncodeTimeDuration(o.totalHostExecutionDuration)
  }

  lemma OneOffQueryResponseDataParts(o: OneOffQueryResponseData, d: seq<byte>, p: nat, q1: nat, q2: nat, q3: nat)
    requires At(d, p, EncodeByteArray(o.messageId) + EncodeOptional(EncodeString, o.error) + EncodeArray(EncodeOneOffTable, o.tables) + EncodeTimeDuration(o.totalHostExecutionDuration))
    requires q1 == p + |EncodeByteArray(o.messageId)|
    requires q2 == q1 + |EncodeOptional(EncodeString, o.error)|
    requires q3 == q2 + |EncodeArray(EncodeOneOffTable, o.tables)|
    ensures At(d, p, EncodeByteArray(o.messageId)) && At(d, q1, EncodeOptional(EncodeString, o.error))
    ensures At(d, q2, EncodeArray(EncodeOneOffTable, o.tables)) && At(d, q3, EncodeTimeDuration(o.totalHostExecutionDuration))
  {
    var e1, e2, e3, e4 := EncodeByteArray(o.messageId), EncodeOptional(EncodeString, o.error), EncodeArray(EncodeOneOffTable, o.tables), EncodeTimeDuration(o.totalHostExecutionDuration);
    AtNext(d, p, e1 + e2 + e3, q3, e4);
    AtNext(d, p, e1 + e2, q2, e3);
    AtNext(d, p, e1, q1, e2);
  }

  lemma OneOffQueryResponseDataFieldsDecode1(o: OneOffQueryResponseData, d: seq<byte>, p: nat, q1: nat, q2: nat, q3: nat, q4: nat)
    requires WireOneOffQueryResponseData(o)
    requires At(d, p, EncodeByteArray(o.messageId))
    requires q1 == p + |EncodeByteArray(o.messageId)|
    ensures DecodeByteArray(d, p) == Some(Read(o.messageId, q1))
  {
    ByteArrayRoundTrip(o.messageId, d, p);
  }

  lemma OneOffQueryResponseDataFieldsDecode2(o: OneOffQueryResponseData, d: seq<byte>, p: nat, q1: nat, q2: nat, q3: nat, q4: nat)
    requires WireOneOffQueryResponseData(o)
    requires At(d, q1, EncodeOptional(EncodeString, o.error))
    requires q2 == q1 + |EncodeOptional(EncodeString, o.error)|
    ensures DecodeOptional(DecodeString, d, q1) == Some(Read(o.error, q2))
  {
    if o.error.Some? {
      StringDecodes(o.error.value);
    }
    OptionalRoundTrip(DecodeString, EncodeString, o.error, d, q1);
  }

  lemma OneOffQueryResponseDataFieldsDecode3(o: OneOffQueryResponseData, d: seq<byte>, p: nat, q1: nat, q2: nat, q3: nat, q4: nat)
    requires WireOneOffQueryResponseData(o)
    requires At(d, q2, EncodeArray(EncodeOneOffTable, o.tables))
    requires q3 == q2 + |EncodeArray(EncodeOneOffTable, o.tables)|
    ensures DecodeArray(DecodeOneOffTable, d, q2) == Some(Read(o.tables, q3))
  {
    OneOffTableArrayRoundTrip(o.tables, d, q2, q3);
  }

  lemma OneOffQueryResponseDataFieldsDecode4(o: OneOffQueryResponseData, d: seq<byte>, p: nat, q1: nat, q2: nat, q3: nat, q4: nat)
    requires WireOneOffQueryResponseData(o)
    requires At(d, q3, EncodeTimeDuration(o.totalHostExecutionDuration))
    requires q4 == q3 + 8
    ensures DecodeTimeDuration(d, q3) == Some(Read(o.totalHostExecutionDuration, q4))
  {
    TimeDurationRoundTrip(o.totalHostExecutionDuration, d, q3);
  }

  lemma OneOffQueryResponseDataFieldsDecode(o: OneOffQueryResponseData, d: seq<byte>, p: nat, q1: nat, q2: nat, q3: nat, q4: nat)
    requires WireOneOffQueryResponseData(o)
    requires At(d, p, EncodeByteArray(o.messageId)) && At(d, q1, EncodeOptional(EncodeString, o.error))
    requires At(d, q2, EncodeArray(EncodeOneOffTable, o.tables)) && At(d, q3, EncodeTimeDuration(o.totalHostExecutionDuration))
    requires q1 == p + |EncodeByteArray(o.messageId)|
    requires q2 == q1 + |EncodeOptional(EncodeString, o.error)|
    requires q3 == q2 + |EncodeArray(EncodeOneOffTable, o.tables)|
    requires q4 == q3 + 8
    ensures DecodeByteArray(d, p) == Some(Read(o.messageId, q1))
    ensures DecodeOptional(DecodeString, d, q1) == Some(Read(o.error, q2))
    ensures DecodeArray(DecodeOneOffTable, d, q2) == Some(Read(o.tables, q3))
    ensures DecodeTimeDuration(d, q3) == Some(Read(o.totalHostExecutionDuration, q4))
  {
    OneOffQueryResponseDataFieldsDecode1(o, d, p, q1, q2, q3, q4);
    OneOffQueryResponseDataFieldsDecode2(o, d, p, q1, q2, q3, q4);
    OneOffQueryResponseDataFieldsDecode3(o, d, p, q1, q2, q3, q4);
    OneOffQueryResponseDataFieldsDecode4(o, d, p, q1, q2, q3, q4);
  }

  lemma OneOffQueryResponseDataOfFields(o: OneOffQueryResponseData, d: seq<byte>, p: nat, q1: nat, q2: nat, q3: nat, q4: nat)
    requires DecodeByteArray(d, p) == Some(Read(o.messageId, q1))
    requires DecodeOptional(DecodeString, d, q1) == Some(Read(o.error, q2))
    requires DecodeArray(DecodeOneOffTable, d, q2) == Some(Read(o.tables, q3))
    requires DecodeTimeDuration(d, q3) == Some(Read(o.totalHostExecutionDuration, q4))
    ensures DecodeOneOffQueryResponseData(d, p) == Some(Read(o, q4))
  {
  }

  /** A one-off answer with ASCII strings without '\0' reads back as written. */
  lemma OneOffQueryResponseDataRoundTrip(o: OneOffQueryResponseData, d: seq<byte>, p: nat, n: nat)
    requires WireOneOffQueryResponseData(o)
    requires At(d, p, EncodeOneOffQueryResponseData(o))
    requires n == p + |EncodeOneOffQueryResponseData(o)|
    ensures DecodeOneOffQueryResponseData(d, p) == Some(Read(o, n))
  {
    var q1 := p + |EncodeByteArray(o.messageId)|;
    var q2 := q1 + |EncodeOptional(EncodeString, o.error)|;
    var q3 := q2 + |EncodeArray(EncodeOneOffTable, o.tables)|;
    OneOffQueryResponseDataParts(o, d, p, q1, q2, q3);
    OneOffQueryResponseDataFieldsDecode(o, d, p, q1, q2, q3, n);
    OneOffQueryResponseDataOfFields(o, d, p, q1, q2, q3, n);
  }

  /** FOneOffQueryResponseData::ReadFields, on the caller's reader. */
  method ReadOneOffQueryResponseData(reader: BinaryReader) returns (o: OneOffQueryResponseData)
    requires reader.Valid() && DecodeOneOffQueryResponseData(reader.data, reader.position).Some?
    modifies reader
    ensures reader.Valid()
    ensures DecodeOneOffQueryResponseData(reader.data, old(reader.position)) == Some(Read(o, reader.position))
  {
    PrimitivesAreSound();
    var messageId := reader.ReadArray(DecodeByte);
    StringIsSound();
    var error := reader.ReadOptional(DecodeString);
    OneOffTableIsSound();
    var tables := reader.ReadArray(DecodeOneOffTable);
    var totalHostExecutionDuration := reader.ReadTimeDuration();
    o := OneOffQueryResponseData(messageId, error, tables, totalHostExecutionDuration);
  }

  /** FOneOffQueryResponseData::WriteFields, on the caller's writer. */
  method WriteOneOffQueryResponseData(o: OneOffQueryResponseData, writer: BinaryWriter)
    requires WritableOneOffQueryResponseData(o)
    modifies writer, writer.data
    ensures writer.data.bytes == WriteAt(old(writer.data.bytes), old(writer.position), EncodeOneOffQueryResponseData(o))
    ensures writer.position == old(writer.position) + |EncodeOneOffQueryResponseData(o)|
  {
    ghost var b, p := writer.data.bytes, writer.position;
    ghost var e1, e2, e3, e4 := EncodeByteArray(o.messageId), EncodeOptional(EncodeString, o.error), EncodeArray(EncodeOneOffTable, o.tables), EncodeTimeDuration(o.totalHostExecutionDuration);
    writer.WriteArray(o.messageId, EncodeByte);
    ghost var q1 := writer.position;
    writer.WriteOptional(EncodeString, o.error);
    WriteAtNext(b, p, e1, q1, e2);
    ghost var q2 := writer.position;
    writer.WriteArray(o.tables, EncodeOneOffTable);
    WriteAtNext(b, p, e1 + e2, q2, e3);
    ghost var q3 := writer.position;
    writer.WriteTimeDuration(o.totalHostExecutionDuration);
    WriteAtNext(b, p, e1 + e2 + e3, q3, e4);
  }

  // ---------------------------------------------------------------------
  // FSubscribeAppliedData

  /** FSubscribeAppliedData and FUnsubscribeAppliedData, which have the same fields read and written the same way: a single query's subscription taking or leaving effect. */
  datatype SubscribeAppliedData = SubscribeAppliedData(requestId: u32, totalHostExecutionDurationMicros: u64, queryId: QueryId, rows: SubscribeRows)

  /** A value that reads back as written: rows that read back. */
  predicate WireSubscribeAppliedData(a: SubscribeAppliedData) {
    WireSubscribeRows(a.rows)
  }

  /** What the writer demands: the rows'. */
  predicate WritableSubscribeAppliedData(a: SubscribeAppliedData) {
    WritableSubscribeRows(a.rows)
  }

  /** ReadFields as a decoder: the uint32 request id, the uint64 duration in microseconds, the query id, then the rows. */
  function DecodeSubscribeAppliedData(d: seq<byte>, p: nat): (r: Option<Read<SubscribeAppliedData>>)
    ensures r.Some? ==> p <= r.value.next <= |d|
  {
    var requestId :- DecodeUInt32(d, p);
    var totalHostExecutionDurationMicros :- DecodeUInt64(d, requestId.next);
    var queryId :- DecodeQueryId(d, totalHostExecutionDurationMicros.next);
    var rows :- DecodeSubscribeRows(d, queryId.next);
    Some(Read(SubscribeAppliedData(requestId.value, totalHostExecutionDurationMicros.value, queryId.value, rows.value), rows.next))
  }

  /** WriteFields as an encoder: the same fields in the same order. */
  function EncodeSubscribeAppliedData(a: SubscribeAppliedData): seq<byte> {
    EncodeUInt32(a.requestId) + EncodeUInt64(a.totalHostExecutionDurationMicros) + EncodeQueryId(a.queryId) + EncodeSubscribeRows(a.rows)
  }

  lemma SubscribeAppliedDataParts(a: SubscribeAppliedData, d: seq<byte>, p: nat, q1: nat, q2: nat, q3: nat)
    requires At(d, p, EncodeUInt32(a.requestId) + EncodeUInt64(a.totalHostExecutionDurationMicros) + EncodeQueryId(a.queryId) + EncodeSubscribeRows(a.rows))
    requires q1 == p + 4
    requires q2 == q1 + 8
    requires q3 == q2 + 4
    ensures At(d, p, EncodeUInt32(a.requestId)) && At(d, q1, EncodeUInt64(a.totalHostExecutionDurationMicros))
    ensures At(d, q2, EncodeQueryId(a.queryId)) && At(d, q3, EncodeSubscribeRows(a.rows))
  {
    var e1, e2, e3, e4 := EncodeUInt32(a.requestId), EncodeUInt64(a.totalHostExecutionDurationMicros), EncodeQueryId(a.queryId), EncodeSubscribeRows(a.rows);
    AtNext(d, p, e1 + e2 + e3, q3, e4);
    AtNext(d, p, e1 + e2, q2, e3);
    AtNext(d, p, e1, q1, e2);
  }

  lemma SubscribeAppliedDataFieldsDecode1(a: SubscribeAppliedData, d: seq<byte>, p: nat, q1: nat, q2: nat, q3: nat, q4: nat)
    requires WireSubscribeAppliedData(a)
    requires At(d, p, EncodeUInt32(a.requestId)) && At(d, q1, EncodeUInt64(a.totalHostExecutionDurationMicros))
    requires q1 == p + 4
    requires q2 == q1 + 8
    ensures DecodeUInt32(d, p) == Some(Read(a.requestId, q1))
    ensures DecodeUInt64(d, q1) == Some(Read(a.totalHostExecutionDurationMicros, q2))
  {
    UInt32RoundTrip(a.requestId, d, p);
    UInt64RoundTrip(a.totalHostExecutionDurationMicros, d, q1);
  }

  lemma SubscribeAppliedDataFieldsDecode2(a: SubscribeAppliedData, d: seq<byte>, p: nat, q1: nat, q2: nat, q3: nat, q4: nat)
    requires WireSubscribeAppliedData(a)
    requires At(d, q2, EncodeQueryId(a.queryId))
    requires q3 == q2 + 4
    ensures DecodeQueryId(d, q2) == Some(Read(a.queryId, q3))
  {
    QueryIdRoundTrip(a.queryId, d, q2);
  }

  lemma SubscribeAppliedDataFieldsDecode3(a: SubscribeAppliedData, d: seq<byte>, p: nat, q1: nat, q2: nat, q3: nat, q4: nat)
    requires WireSubscribeAppliedData(a)
    requires At(d, q3, EncodeSubscribeRows(a.rows))
    requires q4 == q3 + |EncodeSubscribeRows(a.rows)|
    ensures DecodeSubscribeRows(d, q3) == Some(Read(a.rows, q4))
  {
    SubscribeRowsRoundTrip(a.rows, d, q3, q4);
  }

  lemma SubscribeAppliedDataFieldsDecode(a: SubscribeAppliedData, d: seq<byte>, p: nat, q1: nat, q2: nat, q3: nat, q4: nat)
    requires WireSubscribeAppliedData(a)
    requires At(d, p, EncodeUInt32(a.requestId)) && At(d, q1, EncodeUInt64(a.totalHostExecutionDurationMicros))
    requires At(d, q2, EncodeQueryId(a.queryId)) && At(d, q3, EncodeSubscribeRows(a.rows))
    requires q1 == p + 4
    requires q2 == q1 + 8
    requires q3 == q2 + 4
    requires q4 == q3 + |EncodeSubscribeRows(a.rows)|
    ensures DecodeUInt32(d, p) == Some(Read(a.requestId, q1))
    ensures DecodeUInt64(d, q1) == Some(Read(a.totalHostExecutionDurationMicros, q2))
    ensures DecodeQueryId(d, q2) == Some(Read(a.queryId, q3))
    ensures DecodeSubscribeRows(d, q3) == Some(Read(a.rows, q4))
  {
    SubscribeAppliedDataFieldsDecode1(a, d, p, q1, q2, q3, q4);
    SubscribeAppliedDataFieldsDecode2(a, d, p, q1, q2, q3, q4);
    SubscribeAppliedDataFieldsDecode3(a, d, p, q1, q2, q3, q4);
  }

  lemma SubscribeAppliedDataOfFields(a: SubscribeAppliedData, d: seq<byte>, p: nat, q1: nat, q2: nat, q3: nat, q4: nat)
    requires DecodeUInt32(d, p) == Some(Read(a.requestId, q1))
    requires DecodeUInt64(d, q1) == Some(Read(a.totalHostExecutionDurationMicros, q2))
    requires DecodeQueryId(d, q2) == Some(Read(a.queryId, q3))
    requires DecodeSubscribeRows(d, q3) == Some(Read(a.rows, q4))
    ensures DecodeSubscribeAppliedData(d, p) == Some(Read(a, q4))
  {
  }

  /** Applied data whose rows read back reads back as written. */
  lemma SubscribeAppliedDataRoundTrip(a: SubscribeAppliedData, d: seq<byte>, p: nat, n: nat)
    requires WireSubscribeAppliedData(a)
    requires At(d, p, EncodeSubscribeAppliedData(a))
    requires n == p + |EncodeSubscribeAppliedData(a)|
    ensures DecodeSubscribeAppliedData(d, p) == Some(Read(a, n))
  {
    var q1 := p + 4;
    var q2 := q1 + 8;
    var q3 := q2 + 4;
    SubscribeAppliedDataParts(a, d, p, q1, q2, q3);
    SubscribeAppliedDataFieldsDecode(a, d, p, q1, q2, q3, n);
    SubscribeAppliedDataOfFields(a, d, p, q1, q2, q3, n);
  }

  /** FSubscribeAppliedData::ReadFields, on the caller's reader. */
  method ReadSubscribeAppliedData(reader: BinaryReader) returns (a: SubscribeAppliedData)
    requires reader.Valid() && DecodeSubscribeAppliedData(reader.data, reader.position).Some?
    modifies reader
    ensures reader.Valid()
    ensures DecodeSubscribeAppliedData(reader.data, old(reader.position)) == Some(Read(a, reader.position))
  {
    var requestId := reader.ReadUInt32();
    var totalHostExecutionDurationMicros := reader.ReadUInt64();
    var queryId := QueryIds.ReadFields(reader);
    var rows := ReadSubscribeRows(reader);
    a := SubscribeAppliedData(requestId, totalHostExecutionDurationMicros, queryId, rows);
  }

  /** FSubscribeAppliedData::WriteFields, on the caller's writer. */
  method WriteSubscribeAppliedData(a: SubscribeAppliedData, writer: BinaryWriter)
    requires WritableSubscribeAppliedData(a)
    modifies writer, writer.data
    ensures writer.data.bytes == WriteAt(old(writer.data.bytes), old(writer.position), EncodeSubscribeAppliedData(a))
    ensures writer.position == old(writer.position) + |EncodeSubscribeAppliedData(a)|
  {
    ghost var b, p := writer.data.bytes, writer.position;
    ghost var e1, e2, e3, e4 := EncodeUInt32(a.requestId), EncodeUInt64(a.totalHostExecutionDurationMicros), EncodeQueryId(a.queryId), EncodeSubscribeRows(a.rows);
    writer.WriteUInt32(a.requestId);
    ghost var q1 := writer.position;
    writer.WriteUInt64(a.totalHostExecutionDurationMicros);
    WriteAtNext(b, p, e1, q1, e2);
    ghost var q2 := writer.position;
    QueryIds.WriteFields(a.queryId, writer);
    WriteAtNext(b, p, e1 + e2, q2, e3);
    ghost var q3 := writer.position;
    WriteSubscribeRows(a.rows, writer);
    WriteAtNext(b, p, e1 + e2 + e3, q3, e4);
  }

  // ---------------------------------------------------------------------
  // FSubscriptionErrorData

  /** FSubscriptionErrorData: why a subscription failed, with the ids it concerns when known. */
  datatype SubscriptionErrorData = SubscriptionErrorData(totalHostExecutionDurationMicros: u64, requestId: Option<u32>, queryId: Option<u32>, tableId: Option<u32>, error: string)

  /** A value that reads back as written: an ASCII error without '\0'. */
  predicate WireSubscriptionErrorData(e: SubscriptionErrorData) {
    WireString(e.error)
  }

  /** What the writer demands: an error whose UTF-8 count fits the int32 prefix. */
  predicate WritableSubscriptionErrorData(e: SubscriptionErrorData) {
    |WrittenBytes(e.error)| < 0x8000_0000
  }

  /** ReadFields as a decoder: the uint64 duration in microseconds, the optional request, query and table ids, then the error. */
  function DecodeSubscriptionErrorData(d: seq<byte>, p: nat): (r: Option<Read<SubscriptionErrorData>>)
    ensures r.Some? ==> p <= r.value.next <= |d|
  {
    var totalHostExecutionDurationMicros :- DecodeUInt64(d, p);
    var requestId :- DecodeOptional(DecodeUInt32, d, totalHostExecutionDurationMicros.next);
    var queryId :- DecodeOptional(DecodeUInt32, d, requestId.next);
    var tableId :- DecodeOptional(DecodeUInt32, d, queryId.next);
    var error :- DecodeString(d, tableId.next);
    Some(Read(SubscriptionErrorData(totalHostExecutionDurationMicros.value, requestId.value, queryId.value, tableId.value, error.value), error.next))
  }

  /** WriteFields as an encoder: the same fields in the same order. */
  function EncodeSubscriptionErrorData(e: SubscriptionErrorData): seq<byte> {
    EncodeUInt64(e.totalHostExecutionDurationMicros) + EncodeOptional(EncodeUInt32, e.requestId) + EncodeOptional(EncodeUInt32, e.queryId) + EncodeOptional(EncodeUInt32, e.tableId) + EncodeString(e.error)
  }

  lemma SubscriptionErrorDataParts(e: SubscriptionErrorData, d: seq<byte>, p: nat, q1: nat, q2: nat, q3: nat, q4: nat)
    requires At(d, p, EncodeUInt64(e.totalHostExecutionDurationMicros) + EncodeOptional(EncodeUInt32, e.requestId) + EncodeOptional(EncodeUInt32, e.queryId) + EncodeOptional(EncodeUInt32, e.tableId) + EncodeString(e.error))
    requires q1 == p + 8
    requires q2 == q1 + |EncodeOptional(EncodeUInt32, e.requestId)|
    requires q3 == q2 + |EncodeOptional(EncodeUInt32, e.queryId)|
    requires q4 == q3 + |EncodeOptional(EncodeUInt32, e.tableId)|
    ensures At(d, p, EncodeUInt64(e.totalHostExecutionDurationMicros)) && At(d, q1, EncodeOptional(EncodeUInt32, e.requestId))
    ensures At(d, q2, EncodeOptional(EncodeUInt32, e.queryId)) && At(d, q3, EncodeOptional(EncodeUInt32, e.tableId))
    ensures At(d, q4, EncodeString(e.error))
  {
    var e1, e2, e3, e4, e5 := EncodeUInt64(e.totalHostExecutionDurationMicros), EncodeOptional(EncodeUInt32, e.requestId), EncodeOptional(EncodeUInt32, e.queryId), EncodeOptional(EncodeUInt32, e.tableId), EncodeString(e.error);
    AtNext(d, p, e1 + e2 + e3 + e4, q4, e5);
    AtNext(d, p, e1 + e2 + e3, q3, e4);
    AtNext(d, p, e1 + e2, q2, e3);
    AtNext(d, p, e1, q1, e2);
  }

  lemma SubscriptionErrorDataFieldsDecode1(e: SubscriptionErrorData, d: seq<byte>, p: nat, q1: nat, q2: nat, q3: nat, q4: nat, q5: nat)
    requires WireSubscriptionErrorData(e)
    requires At(d, p, EncodeUInt64(e.totalHostExecutionDurationMicros))
    requires q1 == p + 8
    ensures DecodeUInt64(d, p) == Some(Read(e.totalHostExecutionDurationMicros, q1))
  {
    UInt64RoundTrip(e.totalHostExecutionDurationMicros, d, p);
  }

  lemma SubscriptionErrorDataFieldsDecode2(e: SubscriptionErrorData, d: seq<byte>, p: nat, q1: nat, q2: nat, q3: nat, q4: nat, q5: nat)
    requires WireSubscriptionErrorData(e)
    requires At(d, q1, EncodeOptional(EncodeUInt32, e.requestId))
    requires q2 == q1 + |EncodeOptional(EncodeUInt32, e.requestId)|
    ensures DecodeOptional(DecodeUInt32, d, q1) == Some(Read(e.requestId, q2))
  {
    if e.requestId.Some? {
      UInt32Decodes(e.requestId.value);
    }
    OptionalRoundTrip(DecodeUInt32, EncodeUInt32, e.requestId, d, q1);
  }

  lemma SubscriptionErrorDataFieldsDecode3(e: SubscriptionErrorData, d: seq<byte>, p: nat, q1: nat, q2: nat, q3: nat, q4: nat, q5: nat)
    requires WireSubscriptionErrorData(e)
    requires At(d, q2, EncodeOptional(EncodeUInt32, e.queryId))
    requires q3 == q2 + |EncodeOptional(EncodeUInt32, e.queryId)|
    ensures DecodeOptional(DecodeUInt32, d, q2) == Some(Read(e.queryId, q3))
  {
    if e.queryId.Some? {
      UInt32Decodes(e.queryId.value);
    }
    OptionalRoundTrip(DecodeUInt32, EncodeUInt32, e.queryId, d, q2);
  }

  lemma SubscriptionErrorDataFieldsDecode4(e: SubscriptionErrorData, d: seq<byte>, p: nat, q1: nat, q2: nat, q3: nat, q4: nat, q5: nat)
    requires WireSubscriptionErrorData(e)
    requires At(d, q3, EncodeOptional(EncodeUInt32, e.tableId))
    requires q4 == q3 + |EncodeOptional(EncodeUInt32, e.tableId)|
    ensures DecodeOptional(DecodeUInt32, d, q3) == Some(Read(e.tableId, q4))
  {
    if e.tableId.Some? {
      UInt32Decodes(e.tableId.value);
    }
    OptionalRoundTrip(DecodeUInt32, EncodeUInt32, e.tableId, d, q3);
  }

  lemma SubscriptionErrorDataFieldsDecode5(e: SubscriptionErrorData, d: seq<byte>, p: nat, q1: nat, q2: nat, q3: nat, q4: nat, q5: nat)
    requires WireSubscriptionErrorData(e)
    requires At(d, q4, EncodeString(e.error))
    requires q5 == q4 + |EncodeString(e.error)|
    ensures DecodeString(d, q4) == Some(Read(e.error, q5))
  {
    StringRoundTrip(e.error, d, q4);
  }

  lemma SubscriptionErrorDataFieldsDecode(e: SubscriptionErrorData, d: seq<byte>, p: nat, q1: nat, q2: nat, q3: nat, q4: nat, q5: nat)
    requires WireSubscriptionErrorData(e)
    requires At(d, p, EncodeUInt64(e.totalHostExecutionDurationMicros)) && At(d, q1, EncodeOptional(EncodeUInt32, e.requestId))
    requires At(d, q2, EncodeOptional(EncodeUInt32, e.queryId)) && At(d, q3, EncodeOptional(EncodeUInt32, e.tableId))
    requires At(d, q4, EncodeString(e.error))
    requires q1 == p + 8
    requires q2 == q1 + |EncodeOptional(EncodeUInt32, e.requestId)|
    requires q3 == q2 + |EncodeOptional(EncodeUInt32, e.queryId)|
    requires q4 == q3 + |EncodeOptional(EncodeUInt32, e.tableId)|
    requires q5 == q4 + |EncodeString(e.error)|
    ensures DecodeUInt64(d, p) == Some(Read(e.totalHostExecutionDurationMicros, q1))
    ensures DecodeOptional(DecodeUInt32, d, q1) == Some(Read(e.requestId, q2))
    ensures DecodeOptional(DecodeUInt32, d, q2) == Some(Read(e.queryId, q3))
    ensures DecodeOptional(DecodeUInt32, d, q3) == Some(Read(e.tableId, q4))
    ensures DecodeString(d, q4) == Some(Read(e.error, q5))
  {
    SubscriptionErrorDataFieldsDecode1(e, d, p, q1, q2, q3, q4, q5);
    SubscriptionErrorDataFieldsDecode2(e, d, p, q1, q2, q3, q4, q5);
    SubscriptionErrorDataFieldsDecode3(e, d, p, q1, q2, q3, q4, q5);
    SubscriptionErrorDataFieldsDecode4(e, d, p, q1, q2, q3, q4, q5);
    SubscriptionErrorDataFieldsDecode5(e, d, p, q1, q2, q3, q4, q5);
  }

  lemma SubscriptionErrorDataOfFields(e: SubscriptionErrorData, d: seq<byte>, p: nat, q1: nat, q2: nat, q3: nat, q4: nat, q5: nat)
    requires DecodeUInt64(d, p) == Some(Read(e.totalHostExecutionDurationMicros, q1))
    requires DecodeOptional(DecodeUInt32, d, q1) == Some(Read(e.requestId, q2))
    requires DecodeOptional(DecodeUInt32, d, q2) == Some(Read(e.queryId, q3))
    requires DecodeOptional(DecodeUInt32, d, q3) == Some(Read(e.tableId, q4))
    requires DecodeString(d, q4) == Some(Read(e.error, q5))
    ensures DecodeSubscriptionErrorData(d, p) == Some(Read(e, q5))
  {
  }

  /** A subscription error with an ASCII message without '\0' reads back as written. */
  lemma SubscriptionErrorDataRoundTrip(e: SubscriptionErrorData, d: seq<byte>, p: nat, n: nat)
    requires WireSubscriptionErrorData(e)
    requires At(d, p, EncodeSubscriptionErrorData(e))
    requires n == p + |EncodeSubscriptionErrorData(e)|
    ensures DecodeSubscriptionErrorData(d, p) == Some(Read(e, n))
  {
    var q1 := p + 8;
    var q2 := q1 + |EncodeOptional(EncodeUInt32, e.requestId)|;
    var q3 := q2 + |EncodeOptional(EncodeUInt32, e.queryId)|;
    var q4 := q3 + |EncodeOptional(EncodeUInt32, e.tableId)|;
    SubscriptionErrorDataParts(e, d, p, q1, q2, q3, q4);
    SubscriptionErrorDataFieldsDecode(e, d, p, q1, q2, q3, q4, n);
    SubscriptionErrorDataOfFields(e, d, p, q1, q2, q3, q4, n);
  }

  /** FSubscriptionErrorData::ReadFields, on the caller's reader. */
  method ReadSubscriptionErrorData(reader: BinaryReader) returns (e: SubscriptionErrorData)
    requires reader.Valid() && DecodeSubscriptionErrorData(reader.data, reader.position).Some?
    modifies reader
    ensures reader.Valid()
    ensures DecodeSubscriptionErrorData(reader.data, old(reader.position)) == Some(Read(e, reader.position))
  {
    var totalHostExecutionDurationMicros := reader.ReadUInt64();
    PrimitivesAreSound();
    var requestId := reader.ReadOptional(DecodeUInt32);
    PrimitivesAreSound();
    var queryId := reader.ReadOptional(DecodeUInt32);
    PrimitivesAreSound();
    var tableId := reader.ReadOptional(DecodeUInt32);
    var error := reader.ReadString();
    e := SubscriptionErrorData(totalHostExecutionDurationMicros, requestId, queryId, tableId, error);
  }

  /** FSubscriptionErrorData::WriteFields, on the caller's writer. */
  method WriteSubscriptionErrorData(e: SubscriptionErrorData, writer: BinaryWriter)
    requires WritableSubscriptionErrorData(e)
    modifies writer, writer.data
    ensures writer.data.bytes == WriteAt(old(writer.data.bytes), old(writer.position), EncodeSubscriptionErrorData(e))
    ensures writer.position == old(writer.position) + |EncodeSubscriptionErrorData(e)|
  {
    ghost var b, p := writer.data.bytes, writer.position;
    ghost var e1, e2, e3, e4, e5 := EncodeUInt64(e.totalHostExecutionDurationMicros), EncodeOptional(EncodeUInt32, e.requestId), EncodeOptional(EncodeUInt32, e.queryId), EncodeOptional(EncodeUInt32, e.tableId), EncodeString(e.error);
    writer.WriteUInt64(e.totalHostExecutionDurationMicros);
    ghost var q1 := writer.position;
    writer.WriteOptional(EncodeUInt32, e.requestId);
    WriteAtNext(b, p, e1, q1, e2);
    ghost var q2 := writer.position;
    writer.WriteOptional(EncodeUInt32, e.queryId);
    WriteAtNext(b, p, e1 + e2, q2, e3);
    ghost var q3 := writer.position;
    writer.WriteOptional(EncodeUInt32, e.tableId);
    WriteAtNext(b, p, e1 + e2 + e3, q3, e4);
    ghost var q4 := writer.position;
    writer.WriteString(e.error);
    WriteAtNext(b, p, e1 + e2 + e3 + e4, q4, e5);
  }

  // ---------------------------------------------------------------------
  // FSubscribeMultiAppliedData

  /** FSubscribeMultiAppliedData and FUnsubscribeMultiAppliedData, which have the same fields read and written the same way: a multi-query subscription taking or leaving effect. */
  datatype SubscribeMultiAppliedData = SubscribeMultiAppliedData(requestId: u32, totalHostExecutionDurationMicros: u64, queryId: QueryId, update: DatabaseUpdate)

  /** A value that reads back as written: an update that reads back. */
  predicate WireSubscribeMultiAppliedData(a: SubscribeMultiAppliedData) {
    WireDatabaseUpdate(a.update)
  }

  /** What the writer demands: the update's. */
  predicate WritableSubscribeMultiAppliedData(a: SubscribeMultiAppliedData) {
    WritableDatabaseUpdate(a.update)
  }

  /** ReadFields as a decoder: the uint32 request id, the uint64 duration in microseconds, the query id, then the database update. */
  function DecodeSubscribeMultiAppliedData(d: seq<byte>, p: nat): (r: Option<Read<SubscribeMultiAppliedData>>)
    ensures r.Some? ==> p <= r.value.next <= |d|
  {
    var requestId :- DecodeUInt32(d, p);
    var totalHostExecutionDurationMicros :- DecodeUInt64(d, requestId.next);
    var queryId :- DecodeQueryId(d, totalHostExecutionDurationMicros.next);
    var update :- DecodeDatabaseUpdate(d, queryId.next);
    Some(Read(SubscribeMultiAppliedData(requestId.value, totalHostExecutionDurationMicros.value, queryId.value, update.value), update.next))
  }

  /** WriteFields as an encoder: the same fields in the same order. */
  function EncodeSubscribeMultiAppliedData(a: SubscribeMultiAppliedData): seq<byte> {
    EncodeUInt32(a.requestId) + EncodeUInt64(a.totalHostExecutionDurationMicros) + EncodeQueryId(a.queryId) + EncodeDatabaseUpdate(a.update)
  }

  lemma SubscribeMultiAppliedDataParts(a: SubscribeMultiAppliedData, d: seq<byte>, p: nat, q1: nat, q2: nat, q3: nat)
    requires At(d, p, EncodeUInt32(a.requestId) + EncodeUInt64(a.totalHostExecutionDurationMicros) + EncodeQueryId(a.queryId) + EncodeDatabaseUpdate(a.update))
    requires q1 == p + 4
    requires q2 == q1 + 8
    requires q3 == q2 + 4
    ensures At(d, p, EncodeUInt32(a.requestId)) && At(d, q1, EncodeUInt64(a.totalHostExecutionDurationMicros))
    ensures At(d, q2, EncodeQueryId(a.queryId)) && At(d, q3, EncodeDatabaseUpdate(a.update))
  {
    var e1, e2, e3, e4 := EncodeUInt32(a.requestId), EncodeUInt64(a.totalHostExecutionDurationMicros), EncodeQueryId(a.queryId), EncodeDatabaseUpdate(a.update);
    AtNext(d, p, e1 + e2 + e3, q3, e4);
    AtNext(d, p, e1 + e2, q2, e3);
    AtNext(d, p, e1, q1, e2);
  }

  lemma SubscribeMultiAppliedDataFieldsDecode1(a: SubscribeMultiAppliedData, d: seq<byte>, p: nat, q1: nat, q2: nat, q3: nat, q4: nat)
    requires WireSubscribeMultiAppliedData(a)
    requires At(d, p, EncodeUInt32(a.requestId)) && At(d, q1, EncodeUInt64(a.totalHostExecutionDurationMicros))
    requires q1 == p + 4
    requires q2 == q1 + 8
    ensures DecodeUInt32(d, p) == Some(Read(a.requestId, q1))
    ensures DecodeUInt64(d, q1) == Some(Read(a.totalHostExecutionDurationMicros, q2))
  {
    UInt32RoundTrip(a.requestId, d, p);
    UInt64RoundTrip(a.totalHostExecutionDurationMicros, d, q1);
  }

  lemma SubscribeMultiAppliedDataFieldsDecode2(a: SubscribeMultiAppliedData, d: seq<byte>, p: nat, q1: nat, q2: nat, q3: nat, q4: nat)
    requires WireSubscribeMultiAppliedData(a)
    requires At(d, q2, EncodeQueryId(a.queryId))
    requires q3 == q2 + 4
    ensures DecodeQueryId(d, q2) == Some(Read(a.queryId, q3))
  {
    QueryIdRoundTrip(a.queryId, d, q2);
  }

  lemma SubscribeMultiAppliedDataFieldsDecode3(a: SubscribeMultiAppliedData, d: seq<byte>, p: nat, q1: nat, q2: nat, q3: nat, q4: nat)
    requires WireSubscribeMultiAppliedData(a)
    requires At(d, q3, EncodeDatabaseUpdate(a.update))
    requires q4 == q3 + |EncodeDatabaseUpdate(a.update)|
    ensures DecodeDatabaseUpdate(d, q3) == Some(Read(a.update, q4))
  {
    DatabaseUpdateRoundTrip(a.update, d, q3, q4);
  }

  lemma SubscribeMultiAppliedDataFieldsDecode(a: SubscribeMultiAppliedData, d: seq<byte>, p: nat, q1: nat, q2: nat, q3: nat, q4: nat)
    requires WireSubscribeMultiAppliedData(a)
    requires At(d, p, EncodeUInt32(a.requestId)) && At(d, q1, EncodeUInt64(a.totalHostExecutionDurationMicros))
    requires At(d, q2, EncodeQueryId(a.queryId)) && At(d, q3, EncodeDatabaseUpdate(a.update))
    requires q1 == p + 4
    requires q2 == q1 + 8
    requires q3 == q2 + 4
    requires q4 == q3 + |EncodeDatabaseUpdate(a.update)|
    ensures DecodeUInt32(d, p) == Some(Read(a.requestId, q1))
    ensures DecodeUInt64(d, q1) == Some(Read(a.totalHostExecutionDurationMicros, q2))
    ensures DecodeQueryId(d, q2) == Some(Read(a.queryId, q3))
    ensures DecodeDatabaseUpdate(d, q3) == Some(Read(a.update, q4))
  {
    SubscribeMultiAppliedDataFieldsDecode1(a, d, p, q1, q2, q3, q4);
    SubscribeMultiAppliedDataFieldsDecode2(a, d, p, q1, q2, q3, q4);
    SubscribeMultiAppliedDataFieldsDecode3(a, d, p, q1, q2, q3, q4);
  }

  lemma SubscribeMultiAppliedDataOfFields(a: SubscribeMultiAppliedData, d: seq<byte>, p: nat, q1: nat, q2: nat, q3: nat, q4: nat)
    requires DecodeUInt32(d, p) == Some(Read(a.requestId, q1))
    requires DecodeUInt64(d, q1) == Some(Read(a.totalHostExecutionDurationMicros, q2))
    requires DecodeQueryId(d, q2) == Some(Read(a.queryId, q3))
    requires DecodeDatabaseUpdate(d, q3) == Some(Read(a.update, q4))
    ensures DecodeSubscribeMultiAppliedData(d, p) == Some(Read(a, q4))
  {
  }

  /** Multi-applied data whose update reads back reads back as written. */
  lemma SubscribeMultiAppliedDataRoundTrip(a: SubscribeMultiAppliedData, d: seq<byte>, p: nat, n: nat)
    requires WireSubscribeMultiAppliedData(a)
    requires At(d, p, EncodeSubscribeMultiAppliedData(a))
    requires n == p + |EncodeSubscribeMultiAppliedData(a)|
    ensures DecodeSubscribeMultiAppliedData(d, p) == Some(Read(a, n))
  {
    var q1 := p + 4;
    var q2 := q1 + 8;
    var q3 := q2 + 4;
    SubscribeMultiAppliedDataParts(a, d, p, q1, q2, q3);
    SubscribeMultiAppliedDataFieldsDecode(a, d, p, q1, q2, q3, n);
    SubscribeMultiAppliedDataOfFields(a, d, p, q1, q2, q3, n);
  }

  /** FSubscribeMultiAppliedData::ReadFields, on the caller's reader. */
  method ReadSubscribeMultiAppliedData(reader: BinaryReader) returns (a: SubscribeMultiAppliedData)
    requires reader.Valid() && DecodeSubscribeMultiAppliedData(reader.data, reader.position).Some?
    modifies reader
    ensures reader.Valid()
    ensures DecodeSubscribeMultiAppliedData(reader.data, old(reader.position)) == Some(Read(a, reader.position))
  {
    var requestId := reader.ReadUInt32();
    var totalHostExecutionDurationMicros := reader.ReadUInt64();
    var queryId := QueryIds.ReadFields(reader);
    var update := ReadDatabaseUpdate(reader);
    a := SubscribeMultiAppliedData(requestId, totalHostExecutionDurationMicros, queryId, update);
  }

  /** FSubscribeMultiAppliedData::WriteFields, on the caller's writer. */
  method WriteSubscribeMultiAppliedData(a: SubscribeMultiAppliedData, writer: BinaryWriter)
    requires WritableSubscribeMultiAppliedData(a)
    modifies writer, writer.data
    ensures writer.data.bytes == WriteAt(old(writer.data.bytes), old(writer.position), EncodeSubscribeMultiAppliedData(a))
    ensures writer.position == old(writer.position) + |EncodeSubscribeMultiAppliedData(a)|
  {
    ghost var b, p := writer.data.bytes, writer.position;
    ghost var e1, e2, e3, e4 := EncodeUInt32(a.requestId), EncodeUInt64(a.totalHostExecutionDurationMicros), EncodeQueryId(a.queryId), EncodeDatabaseUpdate(a.update);
    writer.WriteUInt32(a.requestId);
    ghost var q1 := writer.position;
    writer.WriteUInt64(a.totalHostExecutionDurationMicros);
    WriteAtNext(b, p, e1, q1, e2);
    ghost var q2 := writer.position;
    QueryIds.WriteFields(a.queryId, writer);
    WriteAtNext(b, p, e1 + e2, q2, e3);
    ghost var q3 := writer.position;
    WriteDatabaseUpdate(a.update, writer);
    WriteAtNext(b, p, e1 + e2 + e3, q3, e4);
  }

  // ---------------------------------------------------------------------
  // FServerMessage

  /** A message: the variant is the type, the argument the payload. A tag
    * naming no variant is kept as it was read; Deserialize then reads no
    * payload and leaves the message's data at its default. */
  datatype ServerMessage =
    | InitialSubscription(initialSubscription: InitialSubscriptionData)
    | TransactionUpdate(transactionUpdate: TransactionUpdateData)
    | TransactionUpdateLight(transactionUpdateLight: TransactionUpdateLightData)
    | IdentityToken(identityToken: IdentityTokenData)
    | OneOffQueryResponse(oneOffQueryResponse: OneOffQueryResponseData)
    | SubscribeApplied(subscribeApplied: SubscribeAppliedData)
    | UnsubscribeApplied(unsubscribeApplied: SubscribeAppliedData)
    | SubscriptionError(subscriptionError: SubscriptionErrorData)
    | SubscribeMultiApplied(subscribeMultiApplied: SubscribeMultiAppliedData)
    | UnsubscribeMultiApplied(unsubscribeMultiApplied: SubscribeMultiAppliedData)
    | UnknownServerMessage(tag: byte)

  /** EServerMessageType: the tag byte of each variant. */
  function ServerTag(m: ServerMessage): byte {
    match m
    case InitialSubscription(_) => 0
    case TransactionUpdate(_) => 1
    case TransactionUpdateLight(_) => 2
    case IdentityToken(_) => 3
    case OneOffQueryResponse(_) => 4
    case SubscribeApplied(_) => 5
    case UnsubscribeApplied(_) => 6
    case SubscriptionError(_) => 7
    case SubscribeMultiApplied(_) => 8
    case UnsubscribeMultiApplied(_) => 9
    case UnknownServerMessage(tag) => tag
  }

  /** A message that reads back as written: an unknown tag names no
    * variant, and the payload reads back. */
  predicate WireServerMessage(m: ServerMessage) {
    match m
    case InitialSubscription(x) => WireInitialSubscriptionData(x)
    case TransactionUpdate(x) => WireTransactionUpdateData(x)
    case TransactionUpdateLight(x) => WireTransactionUpdateLightData(x)
    case IdentityToken(x) => WireIdentityTokenData(x)
    case OneOffQueryResponse(x) => WireOneOffQueryResponseData(x)
    case SubscribeApplied(x) => WireSubscribeAppliedData(x)
    case UnsubscribeApplied(x) => WireSubscribeAppliedData(x)
    case SubscriptionError(x) => WireSubscriptionErrorData(x)
    case SubscribeMultiApplied(x) => WireSubscribeMultiAppliedData(x)
    case UnsubscribeMultiApplied(x) => WireSubscribeMultiAppliedData(x)
    case UnknownServerMessage(tag) => tag >= 10
  }

  /** The payload a tag names, read from q and ending after the payload;
    * an unknown tag names no payload. */
  function DecodeServerFields(tag: byte, d: seq<byte>, q: nat): Option<Read<ServerMessage>> {
    if tag == 0 then
      var x :- DecodeInitialSubscriptionData(d, q);
      Some(Read(InitialSubscription(x.value), x.next))
    else if tag == 1 then
      var x :- DecodeTransactionUpdateData(d, q);
      Some(Read(TransactionUpdate(x.value), x.next))
    else if tag == 2 then
      var x :- DecodeTransactionUpdateLightData(d, q);
      Some(Read(TransactionUpdateLight(x.value), x.next))
    else if tag == 3 then
      var x :- DecodeIdentityTokenData(d, q);
      Some(Read(IdentityToken(x.value), x.next))
    else if tag == 4 then
      var x :- DecodeOneOffQueryResponseData(d, q);
      Some(Read(OneOffQueryResponse(x.value), x.next))
    else if tag == 5 then
      var x :- DecodeSubscribeAppliedData(d, q);
      Some(Read(SubscribeApplied(x.value), x.next))
    else if tag == 6 then
      var x :- DecodeSubscribeAppliedData(d, q);
      Some(Read(UnsubscribeApplied(x.value), x.next))
    else if tag == 7 then
      var x :- DecodeSubscriptionErrorData(d, q);
      Some(Read(SubscriptionError(x.value), x.next))
    else if tag == 8 then
      var x :- DecodeSubscribeMultiAppliedData(d, q);
      Some(Read(SubscribeMultiApplied(x.value), x.next))
    else if tag == 9 then
      var x :- DecodeSubscribeMultiAppliedData(d, q);
      Some(Read(UnsubscribeMultiApplied(x.value), x.next))
    else
      Some(Read(UnknownServerMessage(tag), q))
  }

  /** Deserialize: the tag, then the payload it names; the reader ends
    * after the payload. */
  function DeserializeServer(d: seq<byte>, p: nat): Option<Read<ServerMessage>> {
    var tag :- DecodeByte(d, p);
    DecodeServerFields(tag.value, d, tag.next)
  }

  /** The payload's WriteFields; nothing for an unknown tag. */
  function EncodeServerFields(m: ServerMessage): seq<byte> {
    match m
    case InitialSubscription(x) => EncodeInitialSubscriptionData(x)
    case TransactionUpdate(x) => EncodeTransactionUpdateData(x)
    case TransactionUpdateLight(x) => EncodeTransactionUpdateLightData(x)
    case IdentityToken(x) => EncodeIdentityTokenData(x)
    case OneOffQueryResponse(x) => EncodeOneOffQueryResponseData(x)
    case SubscribeApplied(x) => EncodeSubscribeAppliedData(x)
    case UnsubscribeApplied(x) => EncodeSubscribeAppliedData(x)
    case SubscriptionError(x) => EncodeSubscriptionErrorData(x)
    case SubscribeMultiApplied(x) => EncodeSubscribeMultiAppliedData(x)
    case UnsubscribeMultiApplied(x) => EncodeSubscribeMultiAppliedData(x)
    case UnknownServerMessage(_) => []
  }

  /** A whole message as the server sends it: the tag, then the payload. */
  function EncodeServerMessage(m: ServerMessage): (e: seq<byte>)
    ensures |e| >= 1 && e[0] == ServerTag(m)
    ensures m.UnknownServerMessage? ==> e == [m.tag]
  {
    [ServerTag(m)] + EncodeServerFields(m)
  }

  // Each known tag reads exactly the payload of its variant.

  lemma InitialSubscriptionDataTagged(d: seq<byte>, q: nat)
    ensures DecodeServerFields(0, d, q) ==
      if DecodeInitialSubscriptionData(d, q).Some? then Some(Read(InitialSubscription(DecodeInitialSubscriptionData(d, q).value.value), DecodeInitialSubscriptionData(d, q).value.next)) else None
  {
  }

  lemma TransactionUpdateDataTagged(d: seq<byte>, q: nat)
    ensures DecodeServerFields(1, d, q) ==
      if DecodeTransactionUpdateData(d, q).Some? then Some(Read(TransactionUpdate(DecodeTransactionUpdateData(d, q).value.value), DecodeTransactionUpdateData(d, q).value.next)) else None
  {
  }

  lemma TransactionUpdateLightDataTagged(d: seq<byte>, q: nat)
    ensures DecodeServerFields(2, d, q) ==
      if DecodeTransactionUpdateLightData(d, q).Some? then Some(Read(TransactionUpdateLight(DecodeTransactionUpdateLightData(d, q).value.value), DecodeTransactionUpdateLightData(d, q).value.next)) else None
  {
  }

  lemma IdentityTokenDataTagged(d: seq<byte>, q: nat)
    ensures DecodeServerFields(3, d, q) ==
      if DecodeIdentityTokenData(d, q).Some? then Some(Read(IdentityToken(DecodeIdentityTokenData(d, q).value.value), DecodeIdentityTokenData(d, q).value.next)) else None
  {
  }

  lemma OneOffQueryResponseDataTagged(d: seq<byte>, q: nat)
    ensures DecodeServerFields(4, d, q) ==
      if DecodeOneOffQueryResponseData(d, q).Some? then Some(Read(OneOffQueryResponse(DecodeOneOffQueryResponseData(d, q).value.value), DecodeOneOffQueryResponseData(d, q).value.next)) else None
  {
  }

  lemma SubscribeAppliedDataTagged(d: seq<byte>, q: nat)
    ensures DecodeServerFields(5, d, q) ==
      if DecodeSubscribeAppliedData(d, q).Some? then Some(Read(SubscribeApplied(DecodeSubscribeAppliedData(d, q).value.value), DecodeSubscribeAppliedData(d, q).value.next)) else None
    ensures DecodeServerFields(6, d, q) ==
      if DecodeSubscribeAppliedData(d, q).Some? then Some(Read(UnsubscribeApplied(DecodeSubscribeAppliedData(d, q).value.value), DecodeSubscribeAppliedData(d, q).value.next)) else None
  {
  }

  lemma SubscriptionErrorDataTagged(d: seq<byte>, q: nat)
    ensures DecodeServerFields(7, d, q) ==
      if DecodeSubscriptionErrorData(d, q).Some? then Some(Read(SubscriptionError(DecodeSubscriptionErrorData(d, q).value.value), DecodeSubscriptionErrorData(d, q).value.next)) else None
  {
  }

  lemma SubscribeMultiAppliedDataTagged(d: seq<byte>, q: nat)
    ensures DecodeServerFields(8, d, q) ==
      if DecodeSubscribeMultiAppliedData(d, q).Some? then Some(Read(SubscribeMultiApplied(DecodeSubscribeMultiAppliedData(d, q).value.value), DecodeSubscribeMultiAppliedData(d, q).value.next)) else None
    ensures DecodeServerFields(9, d, q) ==
      if DecodeSubscribeMultiAppliedData(d, q).Some? then Some(Read(UnsubscribeMultiApplied(DecodeSubscribeMultiAppliedData(d, q).value.value), DecodeSubscribeMultiAppliedData(d, q).value.next)) else None
  {
  }

  // The payload under each known tag, in a lemma of its own.

  lemma InitialSubscriptionFields(m: ServerMessage, x: InitialSubscriptionData, d: seq<byte>, q: nat, n: nat)
    requires m == InitialSubscription(x)
    requires WireInitialSubscriptionData(x)
    requires At(d, q, EncodeServerFields(m))
    requires n == q + |EncodeServerFields(m)|
    ensures DecodeServerFields(ServerTag(m), d, q) == Some(Read(m, n))
  {
    InitialSubscriptionDataRoundTrip(x, d, q, n);
    InitialSubscriptionDataTagged(d, q);
  }

  lemma TransactionUpdateFields(m: ServerMessage, x: TransactionUpdateData, d: seq<byte>, q: nat, n: nat)
    requires m == TransactionUpdate(x)
    requires WireTransactionUpdateData(x)
    requires At(d, q, EncodeServerFields(m))
    requires n == q + |EncodeServerFields(m)|
    ensures DecodeServerFields(ServerTag(m), d, q) == Some(Read(m, n))
  {
    TransactionUpdateDataRoundTrip(x, d, q, n);
    TransactionUpdateDataTagged(d, q);
  }

  lemma TransactionUpdateLightFields(m: ServerMessage, x: TransactionUpdateLightData, d: seq<byte>, q: nat, n: nat)
    requires m == TransactionUpdateLight(x)
    requires WireTransactionUpdateLightData(x)
    requires At(d, q, EncodeServerFields(m))
    requires n == q + |EncodeServerFields(m)|
    ensures DecodeServerFields(ServerTag(m), d, q) == Some(Read(m, n))
  {
    TransactionUpdateLightDataRoundTrip(x, d, q, n);
    TransactionUpdateLightDataTagged(d, q);
  }

  lemma IdentityTokenFields(m: ServerMessage, x: IdentityTokenData, d: seq<byte>, q: nat, n: nat)
    requires m == IdentityToken(x)
    requires WireIdentityTokenData(x)
    requires At(d, q, EncodeServerFields(m))
    requires n == q + |EncodeServerFields(m)|
    ensures DecodeServerFields(ServerTag(m), d, q) == Some(Read(m, n))
  {
    IdentityTokenDataRoundTrip(x, d, q, n);
    IdentityTokenDataTagged(d, q);
  }

  lemma OneOffQueryResponseFields(m: ServerMessage, x: OneOffQueryResponseData, d: seq<byte>, q: nat, n: nat)
    requires m == OneOffQueryResponse(x)
    requires WireOneOffQueryResponseData(x)
    requires At(d, q, EncodeServerFields(m))
    requires n == q + |EncodeServerFields(m)|
    ensures DecodeServerFields(ServerTag(m), d, q) == Some(Read(m, n))
  {
    OneOffQueryResponseDataRoundTrip(x, d, q, n);
    OneOffQueryResponseDataTagged(d, q);
  }

  lemma SubscribeAppliedFields(m: ServerMessage, x: SubscribeAppliedData, d: seq<byte>, q: nat, n: nat)
    requires m == SubscribeApplied(x)
    requires WireSubscribeAppliedData(x)
    requires At(d, q, EncodeServerFields(m))
    requires n == q + |EncodeServerFields(m)|
    ensures DecodeServerFields(ServerTag(m), d, q) == Some(Read(m, n))
  {
    SubscribeAppliedDataRoundTrip(x, d, q, n);
    SubscribeAppliedDataTagged(d, q);
  }

  lemma UnsubscribeAppliedFields(m: ServerMessage, x: SubscribeAppliedData, d: seq<byte>, q: nat, n: nat)
    requires m == UnsubscribeApplied(x)
    requires WireSubscribeAppliedData(x)
    requires At(d, q, EncodeServerFields(m))
    requires n == q + |EncodeServerFields(m)|
    ensures DecodeServerFields(ServerTag(m), d, q) == Some(Read(m, n))
  {
    SubscribeAppliedDataRoundTrip(x, d, q, n);
    SubscribeAppliedDataTagged(d, q);
  }

  lemma SubscriptionErrorFields(m: ServerMessage, x: SubscriptionErrorData, d: seq<byte>, q: nat, n: nat)
    requires m == SubscriptionError(x)
    requires WireSubscriptionErrorData(x)
    requires At(d, q, EncodeServerFields(m))
    requires n == q + |EncodeServerFields(m)|
    ensures DecodeServerFields(ServerTag(m), d, q) == Some(Read(m, n))
  {
    SubscriptionErrorDataRoundTrip(x, d, q, n);
    SubscriptionErrorDataTagged(d, q);
  }

  lemma SubscribeMultiAppliedFields(m: ServerMessage, x: SubscribeMultiAppliedData, d: seq<byte>, q: nat, n: nat)
    requires m == SubscribeMultiApplied(x)
    requires WireSubscribeMultiAppliedData(x)
    requires At(d, q, EncodeServerFields(m))
    requires n == q + |EncodeServerFields(m)|
    ensures DecodeServerFields(ServerTag(m), d, q) == Some(Read(m, n))
  {
    SubscribeMultiAppliedDataRoundTrip(x, d, q, n);
    SubscribeMultiAppliedDataTagged(d, q);
  }

  lemma UnsubscribeMultiAppliedFields(m: ServerMessage, x: SubscribeMultiAppliedData, d: seq<byte>, q: nat, n: nat)
    requires m == UnsubscribeMultiApplied(x)
    requires WireSubscribeMultiAppliedData(x)
    requires At(d, q, EncodeServerFields(m))
    requires n == q + |EncodeServerFields(m)|
    ensures DecodeServerFields(ServerTag(m), d, q) == Some(Read(m, n))
  {
    SubscribeMultiAppliedDataRoundTrip(x, d, q, n);
    SubscribeMultiAppliedDataTagged(d, q);
  }

  /** Each payload reads back as written, ending after its last byte. */
  lemma ServerFieldsRoundTrip(m: ServerMessage, d: seq<byte>, q: nat, n: nat)
    requires WireServerMessage(m)
    requires At(d, q, EncodeServerFields(m))
    requires n == q + |EncodeServerFields(m)|
    ensures DecodeServerFields(ServerTag(m), d, q) == Some(Read(m, n))
  {
    match m
    case InitialSubscription(x) => InitialSubscriptionFields(m, x, d, q, n);
    case TransactionUpdate(x) => TransactionUpdateFields(m, x, d, q, n);
    case TransactionUpdateLight(x) => TransactionUpdateLightFields(m, x, d, q, n);
    case IdentityToken(x) => IdentityTokenFields(m, x, d, q, n);
    case OneOffQueryResponse(x) => OneOffQueryResponseFields(m, x, d, q, n);
    case SubscribeApplied(x) => SubscribeAppliedFields(m, x, d, q, n);
    case UnsubscribeApplied(x) => UnsubscribeAppliedFields(m, x, d, q, n);
    case SubscriptionError(x) => SubscriptionErrorFields(m, x, d, q, n);
    case SubscribeMultiApplied(x) => SubscribeMultiAppliedFields(m, x, d, q, n);
    case UnsubscribeMultiApplied(x) => UnsubscribeMultiAppliedFields(m, x, d, q, n);
    case UnknownServerMessage(_) =>
  }

  /** The tag and then the payload it names make the message. */
  lemma DeserializeOfServerFields(m: ServerMessage, d: seq<byte>, p: nat, n: nat)
    requires DecodeByte(d, p) == Some(Read(ServerTag(m), p + 1))
    requires DecodeServerFields(ServerTag(m), d, p + 1) == Some(Read(m, n))
    ensures DeserializeServer(d, p) == Some(Read(m, n))
  {
  }

  /** Deserialize reads back every message a server writes with a known
    * tag and ASCII strings without '\0', and the reader ends after the whole message. */
  lemma ServerMessageRoundTrip(m: ServerMessage, d: seq<byte>, p: nat, n: nat)
    requires WireServerMessage(m)
    requires At(d, p, EncodeServerMessage(m))
    requires n == p + |EncodeServerMessage(m)|
    ensures DeserializeServer(d, p) == Some(Read(m, n))
  {
    AtNext(d, p, [ServerTag(m)], p + 1, EncodeServerFields(m));
    ByteRoundTrip(ServerTag(m), d, p);
    ServerFieldsRoundTrip(m, d, p + 1, n);
    DeserializeOfServerFields(m, d, p, n);
  }

  /** A tag naming no variant is read alone: the message keeps it and the
    * reader stops just past it. */
  lemma UnknownTagReadsNothing(d: seq<byte>, p: nat)
    requires p < |d| && d[p] >= 10
    ensures DeserializeServer(d, p) == Some(Read(UnknownServerMessage(d[p]), p + 1))
  {
  }

  /** FServerMessage::Deserialize, on the caller's reader: the tag, then
    * the payload it names; an unknown tag is kept and nothing more read. */
  method Deserialize(reader: BinaryReader) returns (m: ServerMessage)
    requires reader.Valid() && DeserializeServer(reader.data, reader.position).Some?
    modifies reader
    ensures reader.Valid()
    ensures DeserializeServer(reader.data, old(reader.position)) == Some(Read(m, reader.position))
  {
    var messageType := reader.ReadByte();
    if messageType == 0 {
      var x := ReadInitialSubscriptionData(reader);
      m := InitialSubscription(x);
    } else if messageType == 1 {
      var x := ReadTransactionUpdateData(reader);
      m := TransactionUpdate(x);
    } else if messageType == 2 {
      var x := ReadTransactionUpdateLightData(reader);
      m := TransactionUpdateLight(x);
    } else if messageType == 3 {
      var x := ReadIdentityTokenData(reader);
      m := IdentityToken(x);
    } else if messageType == 4 {
      var x := ReadOneOffQueryResponseData(reader);
      m := OneOffQueryResponse(x);
    } else if messageType == 5 {
      var x := ReadSubscribeAppliedData(reader);
      m := SubscribeApplied(x);
    } else if messageType == 6 {
      var x := ReadSubscribeAppliedData(reader);
      m := UnsubscribeApplied(x);
    } else if messageType == 7 {
      var x := ReadSubscriptionErrorData(reader);
      m := SubscriptionError(x);
    } else if messageType == 8 {
      var x := ReadSubscribeMultiAppliedData(reader);
      m := SubscribeMultiApplied(x);
    } else if messageType == 9 {
      var x := ReadSubscribeMultiAppliedData(reader);
      m := UnsubscribeMultiApplied(x);
    } else {
      m := UnknownServerMessage(messageType);
    }
  }
}
