/** FQueryId: a client-chosen uint32 naming a subscription. */
module QueryIds {
  import opened Wrappers
  import opened Bytes
  import opened Codec
  import BinaryReaders
  import BinaryWriters

  datatype QueryId = QueryId(id: u32)

  /** The default constructor: id 0. */
  const Default: QueryId := QueryId(0)

  function DecodeQueryId(d: seq<byte>, p: nat): (r: Option<Read<QueryId>>)
    ensures r.Some? <==> p + 4 <= |d|
    ensures r.Some? ==> r.value.next == p + 4 && r.value.value.id == FromLE(d[p..p + 4])
  {
    UnsignedReadsAreLE(d, p);
    var x :- DecodeUInt32(d, p);
    Some(Read(QueryId(x.value), x.next))
  }

  function EncodeQueryId(q: QueryId): (e: seq<byte>)
    ensures e == LE(q.id, 4)
  {
    UnsignedWritesAreLE(0, q.id, 0);
    EncodeUInt32(q.id)
  }

  lemma QueryIdRoundTrip(q: QueryId, d: seq<byte>, p: nat)
    requires At(d, p, EncodeQueryId(q))
    ensures DecodeQueryId(d, p) == Some(Read(q, p + 4))
  {
    UInt32RoundTrip(q.id, d, p);
  }

  lemma QueryIdIsSound()
    ensures Sound(DecodeQueryId)
  {
  }

  /** ReadFields: the id is replaced by the next uint32. */
  method ReadFields(reader: BinaryReaders.BinaryReader) returns (q: QueryId)
    requires reader.Valid() && reader.position + 4 <= |reader.data|
    modifies reader
    ensures reader.Valid()
    ensures DecodeQueryId(reader.data, old(reader.position)) == Some(Read(q, reader.position))
  {
    var id := reader.ReadUInt32();
    q := QueryId(id);
  }

  /** WriteFields: the four bytes of the id. */
  method WriteFields(q: QueryId, writer: BinaryWriters.BinaryWriter)
    modifies writer, writer.data
    ensures writer.data.bytes == BinaryWriters.WriteAt(old(writer.data.bytes), old(writer.position), EncodeQueryId(q))
    ensures writer.position == old(writer.position) + 4
  {
    writer.WriteUInt32(q.id);
  }
}
