/** The row lists and table updates the server sends inside its
  * messages (FServerMessage.h): each struct's ReadFields as a pure
  * decoder, its WriteFields as a pure encoder, the round trip between
  * them, and the two methods proved against them.
  *
  * The tagged unions among them (RowSizeHint, FCompressableQueryUpdate)
  * read a tag naming no variant like their first variant; the datatypes
  * keep such a tag as it was read. */
module ServerUpdates {
  import opened Wrappers
  import opened Bytes
  import opened Codec
  import opened BinaryReaders
  import opened BinaryWriters

  // Each round trip below is split in steps kept apart, which keeps each
  // proof small: the encoding found at p is each field's encoding found in
  // turn (the Parts lemmas), each field decodes (the FieldsDecode lemmas),
  // and the fields decoded in turn make the value (the OfFields lemmas).

  // ---------------------------------------------------------------------
  // RowSizeHint

  /** How the rows of a row list are delimited: one size for every row,
    * or the offset of each row. A tag naming neither is read like a fixed
    * size and kept as it was read. */
  datatype RowSizeHint =
    | FixedSize(size: u16)
    | RowOffsets(offsets: seq<u64>)
    | UnknownHint(tag: byte, size: u16)

  /** EHintType: the tag byte of each variant. */
  function HintTag(h: RowSizeHint): byte {
    match h
    case FixedSize(_) => 0
    case RowOffsets(_) => 1
    case UnknownHint(tag, _) => tag
  }

  /** A hint that reads back as written: a known tag, and offsets whose
    * count fits the int32 prefix. */
  predicate WireRowSizeHint(h: RowSizeHint) {
    match h
    case FixedSize(_) => true
    case RowOffsets(offsets) => |offsets| < 0x8000_0000
    case UnknownHint(_, _) => false
  }

  /** What the writer demands: offsets whose count fits the int32 prefix. */
  predicate WritableRowSizeHint(h: RowSizeHint) {
    h.RowOffsets? ==> |h.offsets| < 0x8000_0000
  }

  /** ReadFields: the tag; tag 1 is followed by the uint64 offsets, tag 0
    * and every other tag by a uint16 size. */
  function DecodeRowSizeHint(d: seq<byte>, p: nat): (r: Option<Read<RowSizeHint>>)
    ensures r.Some? ==> p <= r.value.next <= |d|
  {
    PrimitivesAreSound();
    ArrayAdvances(DecodeUInt64);
    var tag :- DecodeByte(d, p);
    if tag.value == 1 then
      var offsets :- DecodeArray(DecodeUInt64, d, tag.next);
      Some(Read(RowOffsets(offsets.value), offsets.next))
    else
      var size :- DecodeUInt16(d, tag.next);
      Some(Read(if tag.value == 0 then FixedSize(size.value) else UnknownHint(tag.value, size.value), size.next))
  }

  /** WriteFields: the tag, then the size or the offsets; an unknown tag
    * is written alone. */
  function EncodeRowSizeHint(h: RowSizeHint): (e: seq<byte>)
    ensures |e| >= 1 && e[0] == HintTag(h)
  {
    match h
    case FixedSize(size) => EncodeByte(0) + EncodeUInt16(size)
    case RowOffsets(offsets) => EncodeByte(1) + EncodeArray(EncodeUInt64, offsets)
    case UnknownHint(tag, _) => EncodeByte(tag)
  }

  /** A hint with a known tag reads back as written. */
  lemma RowSizeHintRoundTrip(h: RowSizeHint, d: seq<byte>, p: nat, n: nat)
    requires WireRowSizeHint(h)
    requires At(d, p, EncodeRowSizeHint(h))
    requires n == p + |EncodeRowSizeHint(h)|
    ensures DecodeRowSizeHint(d, p) == Some(Read(h, n))
  {
    if h.FixedSize? {
      AtNext(d, p, EncodeByte(0), p + 1, EncodeUInt16(h.size));
      ByteRoundTrip(0, d, p);
      UInt16RoundTrip(h.size, d, p + 1);
    } else {
      AtNext(d, p, EncodeByte(1), p + 1, EncodeArray(EncodeUInt64, h.offsets));
      ByteRoundTrip(1, d, p);
      forall i | 0 <= i < |h.offsets|
        ensures Decodes(DecodeUInt64, EncodeUInt64, h.offsets[i])
      {
        UInt64Decodes(h.offsets[i]);
      }
      ArrayRoundTrip(DecodeUInt64, EncodeUInt64, h.offsets, d, p + 1);
    }
  }

  /** Any tag but 1 is followed by a uint16 size, which is kept with the
    * tag when the tag is not 0. */
  lemma HintDefaultsToSize(d: seq<byte>, p: nat)
    requires p + 3 <= |d| && d[p] != 1
    ensures DecodeRowSizeHint(d, p).Some?
    ensures DecodeRowSizeHint(d, p).value.next == p + 3
    ensures DecodeRowSizeHint(d, p).value.value ==
      if d[p] == 0 then FixedSize(DecodeUInt16(d, p + 1).value.value)
      else UnknownHint(d[p], DecodeUInt16(d, p + 1).value.value)
  {
  }

  /** An unknown tag is written without the size it was read with, so a
    * hint with such a tag does not survive the round trip. */
  lemma UnknownHintIsLost(h: RowSizeHint, d: seq<byte>, p: nat)
    requires h.UnknownHint? && h.tag != 1
    requires At(d, p, EncodeRowSizeHint(h))
    ensures DecodeRowSizeHint(d, p) != Some(Read(h, p + |EncodeRowSizeHint(h)|))
  {
  }

  /** RowSizeHint::ReadFields, on the caller's reader. */
  method ReadRowSizeHint(reader: BinaryReader) returns (h: RowSizeHint)
    requires reader.Valid() && DecodeRowSizeHint(reader.data, reader.position).Some?
    modifies reader
    ensures reader.Valid()
    ensures DecodeRowSizeHint(reader.data, old(reader.position)) == Some(Read(h, reader.position))
  {
    var tag := reader.ReadByte();
    if tag == 1 {
      PrimitivesAreSound();
      var offsets := reader.ReadArray(DecodeUInt64);
      h := RowOffsets(offsets);
    } else {
      var size := reader.ReadUInt16();
      h := if tag == 0 then FixedSize(size) else UnknownHint(tag, size);
    }
  }

  /** RowSizeHint::WriteFields, on the caller's writer. */
  method WriteRowSizeHint(h: RowSizeHint, writer: BinaryWriter)
    requires WritableRowSizeHint(h)
    modifies writer, writer.data
    ensures writer.data.bytes == WriteAt(old(writer.data.bytes), old(writer.position), EncodeRowSizeHint(h))
    ensures writer.position == old(writer.position) + |EncodeRowSizeHint(h)|
  {
    ghost var b, p := writer.data.bytes, writer.position;
    writer.WriteByte(HintTag(h));
    match h {
      case FixedSize(size) =>
        writer.WriteUInt16(size);
        WriteAtNext(b, p, EncodeByte(0), p + 1, EncodeUInt16(size));
      case RowOffsets(offsets) =>
        writer.WriteArray(offsets, EncodeUInt64);
        WriteAtNext(b, p, EncodeByte(1), p + 1, EncodeArray(EncodeUInt64, offsets));
      case UnknownHint(_, _) =>
    }
  }

  // ---------------------------------------------------------------------
  // FBsatnRowList

  /** FBsatnRowList: rows stored back to back, with the hint that delimits them. */
  datatype BsatnRowList = BsatnRowList(sizeHint: RowSizeHint, rowsData: seq<byte>)

  /** A value that reads back as written: a hint that reads back, and rows whose count fits the int32 prefix. */
  predicate WireBsatnRowList(l: BsatnRowList) {
    WireRowSizeHint(l.sizeHint)
    && |l.rowsData| < 0x8000_0000
  }

  /** What the writer demands: the hint's, and rows whose count fits the int32 prefix. */
  predicate WritableBsatnRowList(l: BsatnRowList) {
    WritableRowSizeHint(l.sizeHint)
    && |l.rowsData| < 0x8000_0000
  }

  /** ReadFields as a decoder: the hint, then the row bytes. */
  function DecodeBsatnRowList(d: seq<byte>, p: nat): (r: Option<Read<BsatnRowList>>)
    ensures r.Some? ==> p <= r.value.next <= |d|
  {
    PrimitivesAreSound();
    ArrayAdvances(DecodeByte);
    var sizeHint :- DecodeRowSizeHint(d, p);
    var rowsData :- DecodeByteArray(d, sizeHint.next);
    Some(Read(BsatnRowList(sizeHint.value, rowsData.value), rowsData.next))
  }

  /** WriteFields as an encoder: the same fields in the same order. */
  function EncodeBsatnRowList(l: BsatnRowList): seq<byte> {
    EncodeRowSizeHint(l.sizeHint) + EncodeByteArray(l.rowsData)
  }

  lemma BsatnRowListParts(l: BsatnRowList, d: seq<byte>, p: nat, q1: nat)
    requires At(d, p, EncodeRowSizeHint(l.sizeHint) + EncodeByteArray(l.rowsData))
    requires q1 == p + |EncodeRowSizeHint(l.sizeHint)|
    ensures At(d, p, EncodeRowSizeHint(l.sizeHint)) && At(d, q1, EncodeByteArray(l.rowsData))
  {
    var e1, e2 := EncodeRowSizeHint(l.sizeHint), EncodeByteArray(l.rowsData);
    AtNext(d, p, e1, q1, e2);
  }

  lemma BsatnRowListFieldsDecode1(l: BsatnRowList, d: seq<byte>, p: nat, q1: nat, q2: nat)
    requires WireBsatnRowList(l)
    requires At(d, p, EncodeRowSizeHint(l.sizeHint))
    requires q1 == p + |EncodeRowSizeHint(l.sizeHint)|
    ensures DecodeRowSizeHint(d, p) == Some(Read(l.sizeHint, q1))
  {
    RowSizeHintRoundTrip(l.sizeHint, d, p, q1);
  }

  lemma BsatnRowListFieldsDecode2(l: BsatnRowList, d: seq<byte>, p: nat, q1: nat, q2: nat)
    requires WireBsatnRowList(l)
    requires At(d, q1, EncodeByteArray(l.rowsData))
    requires q2 == q1 + |EncodeByteArray(l.rowsData)|
    ensures DecodeByteArray(d, q1) == Some(Read(l.rowsData, q2))
  {
    ByteArrayRoundTrip(l.rowsData, d, q1);
  }

  lemma BsatnRowListFieldsDecode(l: BsatnRowList, d: seq<byte>, p: nat, q1: nat, q2: nat)
    requires WireBsatnRowList(l)
    requires At(d, p, EncodeRowSizeHint(l.sizeHint)) && At(d, q1, EncodeByteArray(l.rowsData))
    requires q1 == p + |EncodeRowSizeHint(l.sizeHint)|
    requires q2 == q1 + |EncodeByteArray(l.rowsData)|
    ensures DecodeRowSizeHint(d, p) == Some(Read(l.sizeHint, q1))
    ensures DecodeByteArray(d, q1) == Some(Read(l.rowsData, q2))
  {
    BsatnRowListFieldsDecode1(l, d, p, q1, q2);
    BsatnRowListFieldsDecode2(l, d, p, q1, q2);
  }

  lemma BsatnRowListOfFields(l: BsatnRowList, d: seq<byte>, p: nat, q1: nat, q2: nat)
    requires DecodeRowSizeHint(d, p) == Some(Read(l.sizeHint, q1))
    requires DecodeByteArray(d, q1) == Some(Read(l.rowsData, q2))
    ensures DecodeBsatnRowList(d, p) == Some(Read(l, q2))
  {
  }

  /** A row list with a known hint reads back as written. */
  lemma BsatnRowListRoundTrip(l: BsatnRowList, d: seq<byte>, p: nat, n: nat)
    requires WireBsatnRowList(l)
    requires At(d, p, EncodeBsatnRowList(l))
    requires n == p + |EncodeBsatnRowList(l)|
    ensures DecodeBsatnRowList(d, p) == Some(Read(l, n))
  {
    var q1 := p + |EncodeRowSizeHint(l.sizeHint)|;
    BsatnRowListParts(l, d, p, q1);
    BsatnRowListFieldsDecode(l, d, p, q1, n);
    BsatnRowListOfFields(l, d, p, q1, n);
  }

  /** FBsatnRowList::ReadFields, on the caller's reader. */
  method ReadBsatnRowList(reader: BinaryReader) returns (l: BsatnRowList)
    requires reader.Valid() && DecodeBsatnRowList(reader.data, reader.position).Some?
    modifies reader
    ensures reader.Valid()
    ensures DecodeBsatnRowList(reader.data, old(reader.position)) == Some(Read(l, reader.position))
  {
    var sizeHint := ReadRowSizeHint(reader);
    PrimitivesAreSound();
    var rowsData := reader.ReadArray(DecodeByte);
    l := BsatnRowList(sizeHint, rowsData);
  }

  /** FBsatnRowList::WriteFields, on the caller's writer. */
  method WriteBsatnRowList(l: BsatnRowList, writer: BinaryWriter)
    requires WritableBsatnRowList(l)
    modifies writer, writer.data
    ensures writer.data.bytes == WriteAt(old(writer.data.bytes), old(writer.position), EncodeBsatnRowList(l))
    ensures writer.position == old(writer.position) + |EncodeBsatnRowList(l)|
  {
    ghost var b, p := writer.data.bytes, writer.position;
    ghost var e1, e2 := EncodeRowSizeHint(l.sizeHint), EncodeByteArray(l.rowsData);
    WriteRowSizeHint(l.sizeHint, writer);
    ghost var q1 := writer.position;
    writer.WriteArray(l.rowsData, EncodeByte);
    WriteAtNext(b, p, e1, q1, e2);
  }

  // ---------------------------------------------------------------------
  // FQueryUpdate

  /** FQueryUpdate: the rows a change deletes and the rows it inserts. */
  datatype QueryUpdate = QueryUpdate(deletes: BsatnRowList, inserts: BsatnRowList)

  /** A value that reads back as written: both row lists read back. */
  predicate WireQueryUpdate(u: QueryUpdate) {
    WireBsatnRowList(u.deletes)
    && WireBsatnRowList(u.inserts)
  }

  /** What the writer demands: both row lists'. */
  predicate WritableQueryUpdate(u: QueryUpdate) {
    WritableBsatnRowList(u.deletes)
    && WritableBsatnRowList(u.inserts)
  }

  /** ReadFields as a decoder: the deletes, then the inserts. */
  function DecodeQueryUpdate(d: seq<byte>, p: nat): (r: Option<Read<QueryUpdate>>)
    ensures r.Some? ==> p <= r.value.next <= |d|
  {
    var deletes :- DecodeBsatnRowList(d, p);
    var inserts :- DecodeBsatnRowList(d, deletes.next);
    Some(Read(QueryUpdate(deletes.value, inserts.value), inserts.next))
  }

  /** WriteFields as an encoder: the same fields in the same order. */
  function EncodeQueryUpdate(u: QueryUpdate): seq<byte> {
    EncodeBsatnRowList(u.deletes) + EncodeBsatnRowList(u.inserts)
  }

  lemma QueryUpdateParts(u: QueryUpdate, d: seq<byte>, p: nat, q1: nat)
    requires At(d, p, EncodeBsatnRowList(u.deletes) + EncodeBsatnRowList(u.inserts))
    requires q1 == p + |EncodeBsatnRowList(u.deletes)|
    ensures At(d, p, EncodeBsatnRowList(u.deletes)) && At(d, q1, EncodeBsatnRowList(u.inserts))
  {
    var e1, e2 := EncodeBsatnRowList(u.deletes), EncodeBsatnRowList(u.inserts);
    AtNext(d, p, e1, q1, e2);
  }

  lemma QueryUpdateFieldsDecode1(u: QueryUpdate, d: seq<byte>, p: nat, q1: nat, q2: nat)
    requires WireQueryUpdate(u)
    requires At(d, p, EncodeBsatnRowList(u.deletes))
    requires q1 == p + |EncodeBsatnRowList(u.deletes)|
    ensures DecodeBsatnRowList(d, p) == Some(Read(u.deletes, q1))
  {
    BsatnRowListRoundTrip(u.deletes, d, p, q1);
  }

  lemma QueryUpdateFieldsDecode2(u: QueryUpdate, d: seq<byte>, p: nat, q1: nat, q2: nat)
    requires WireQueryUpdate(u)
    requires At(d, q1, EncodeBsatnRowList(u.inserts))
    requires q2 == q1 + |EncodeBsatnRowList(u.inserts)|
    ensures DecodeBsatnRowList(d, q1) == Some(Read(u.inserts, q2))
  {
    BsatnRowListRoundTrip(u.inserts, d, q1, q2);
  }

  lemma QueryUpdateFieldsDecode(u: QueryUpdate, d: seq<byte>, p: nat, q1: nat, q2: nat)
    requires WireQueryUpdate(u)
    requires At(d, p, EncodeBsatnRowList(u.deletes)) && At(d, q1, EncodeBsatnRowList(u.inserts))
    requires q1 == p + |EncodeBsatnRowList(u.deletes)|
    requires q2 == q1 + |EncodeBsatnRowList(u.inserts)|
    ensures DecodeBsatnRowList(d, p) == Some(Read(u.deletes, q1))
    ensures DecodeBsatnRowList(d, q1) == Some(Read(u.inserts, q2))
  {
    QueryUpdateFieldsDecode1(u, d, p, q1, q2);
    QueryUpdateFieldsDecode2(u, d, p, q1, q2);
  }

  lemma QueryUpdateOfFields(u: QueryUpdate, d: seq<byte>, p: nat, q1: nat, q2: nat)
    requires DecodeBsatnRowList(d, p) == Some(Read(u.deletes, q1))
    requires DecodeBsatnRowList(d, q1) == Some(Read(u.inserts, q2))
    ensures DecodeQueryUpdate(d, p) == Some(Read(u, q2))
  {
  }

  /** An update whose row lists read back reads back as written. */
  lemma QueryUpdateRoundTrip(u: QueryUpdate, d: seq<byte>, p: nat, n: nat)
    requires WireQueryUpdate(u)
    requires At(d, p, EncodeQueryUpdate(u))
    requires n == p + |EncodeQueryUpdate(u)|
    ensures DecodeQueryUpdate(d, p) == Some(Read(u, n))
  {
    var q1 := p + |EncodeBsatnRowList(u.deletes)|;
    QueryUpdateParts(u, d, p, q1);
    QueryUpdateFieldsDecode(u, d, p, q1, n);
    QueryUpdateOfFields(u, d, p, q1, n);
  }

  /** FQueryUpdate::ReadFields, on the caller's reader. */
  method ReadQueryUpdate(reader: BinaryReader) returns (u: QueryUpdate)
    requires reader.Valid() && DecodeQueryUpdate(reader.data, reader.position).Some?
    modifies reader
    ensures reader.Valid()
    ensures DecodeQueryUpdate(reader.data, old(reader.position)) == Some(Read(u, reader.position))
  {
    var deletes := ReadBsatnRowList(reader);
    var inserts := ReadBsatnRowList(reader);
    u := QueryUpdate(deletes, inserts);
  }

  /** FQueryUpdate::WriteFields, on the caller's writer. */
  method WriteQueryUpdate(u: QueryUpdate, writer: BinaryWriter)
    requires WritableQueryUpdate(u)
    modifies writer, writer.data
    ensures writer.data.bytes == WriteAt(old(writer.data.bytes), old(writer.position), EncodeQueryUpdate(u))
    ensures writer.position == old(writer.position) + |EncodeQueryUpdate(u)|
  {
    ghost var b, p := writer.data.bytes, writer.position;
    ghost var e1, e2 := EncodeBsatnRowList(u.deletes), EncodeBsatnRowList(u.inserts);
    WriteBsatnRowList(u.deletes, writer);
    ghost var q1 := writer.position;
    WriteBsatnRowList(u.inserts, writer);
    WriteAtNext(b, p, e1, q1, e2);
  }

  // ---------------------------------------------------------------------
  // FCompressableQueryUpdate

  /** A table's row changes, either as two row lists or compressed. A tag
    * naming no compression is read like an uncompressed update and kept
    * as it was read. */
  datatype CompressableQueryUpdate =
    | Uncompressed(update: QueryUpdate)
    | Brotli(compressed: seq<byte>)
    | Gzip(compressed: seq<byte>)
    | UnknownCompression(tag: byte, update: QueryUpdate)

  /** ECompressionType: the tag byte of each variant. */
  function CompressionTag(c: CompressableQueryUpdate): byte {
    match c
    case Uncompressed(_) => 0
    case Brotli(_) => 1
    case Gzip(_) => 2
    case UnknownCompression(tag, _) => tag
  }

  /** An update that reads back as written: a tag the reader does not take
    * for another variant, row lists that read back, and compressed bytes
    * whose count fits the int32 prefix. */
  predicate WireCompressableQueryUpdate(c: CompressableQueryUpdate) {
    match c
    case Uncompressed(update) => WireQueryUpdate(update)
    case Brotli(compressed) => |compressed| < 0x8000_0000
    case Gzip(compressed) => |compressed| < 0x8000_0000
    case UnknownCompression(tag, update) => tag >= 3 && WireQueryUpdate(update)
  }

  predicate WritableCompressableQueryUpdate(c: CompressableQueryUpdate) {
    match c
    case Uncompressed(update) => WritableQueryUpdate(update)
    case Brotli(compressed) => |compressed| < 0x8000_0000
    case Gzip(compressed) => |compressed| < 0x8000_0000
    case UnknownCompression(_, update) => WritableQueryUpdate(update)
  }

  /** ReadFields: the tag; tags 1 and 2 are followed by the compressed
    * bytes, tag 0 and every other tag by the deletes and the inserts. */
  function DecodeCompressableQueryUpdate(d: seq<byte>, p: nat): (r: Option<Read<CompressableQueryUpdate>>)
    ensures r.Some? ==> p <= r.value.next <= |d|
  {
    PrimitivesAreSound();
    ArrayAdvances(DecodeByte);
    var tag :- DecodeByte(d, p);
    if tag.value == 1 || tag.value == 2 then
      var compressed :- DecodeByteArray(d, tag.next);
      Some(Read(if tag.value == 1 then Brotli(compressed.value) else Gzip(compressed.value), compressed.next))
    else
      var update :- DecodeQueryUpdate(d, tag.next);
      Some(Read(if tag.value == 0 then Uncompressed(update.value) else UnknownCompression(tag.value, update.value), update.next))
  }

  /** WriteFields: the tag, then what the reader expects after it, for
    * unknown tags too. */
  function EncodeCompressableQueryUpdate(c: CompressableQueryUpdate): (e: seq<byte>)
    ensures |e| >= 1 && e[0] == CompressionTag(c)
  {
    match c
    case Uncompressed(update) => EncodeByte(0) + EncodeQueryUpdate(update)
    case Brotli(compressed) => EncodeByte(1) + EncodeByteArray(compressed)
    case Gzip(compressed) => EncodeByte(2) + EncodeByteArray(compressed)
    case UnknownCompression(tag, update) => EncodeByte(tag) + EncodeQueryUpdate(update)
  }

  /** The bytes of a Brotli or gzip update follow its tag. */
  lemma CompressedRoundTrip(c: CompressableQueryUpdate, d: seq<byte>, p: nat, n: nat)
    requires c.Brotli? || c.Gzip?
    requires |c.compressed| < 0x8000_0000
    requires At(d, p, EncodeByte(CompressionTag(c)) + EncodeByteArray(c.compressed))
    requires n == p + 1 + |EncodeByteArray(c.compressed)|
    ensures DecodeCompressableQueryUpdate(d, p) == Some(Read(c, n))
  {
    var tag := CompressionTag(c);
    AtNext(d, p, EncodeByte(tag), p + 1, EncodeByteArray(c.compressed));
    ByteRoundTrip(tag, d, p);
    ByteArrayRoundTrip(c.compressed, d, p + 1);
  }

  lemma RowListsOfFields(c: CompressableQueryUpdate, d: seq<byte>, p: nat, n: nat)
    requires c.Uncompressed? || (c.UnknownCompression? && c.tag >= 3)
    requires DecodeByte(d, p) == Some(Read(CompressionTag(c), p + 1))
    requires DecodeQueryUpdate(d, p + 1) == Some(Read(c.update, n))
    ensures DecodeCompressableQueryUpdate(d, p) == Some(Read(c, n))
  {
  }

  /** The row lists of an uncompressed update, or of one with a tag naming
    * no compression, follow its tag. */
  lemma RowListsRoundTrip(c: CompressableQueryUpdate, d: seq<byte>, p: nat, n: nat)
    requires c.Uncompressed? || (c.UnknownCompression? && c.tag >= 3)
    requires WireQueryUpdate(c.update)
    requires At(d, p, EncodeByte(CompressionTag(c)) + EncodeQueryUpdate(c.update))
    requires n == p + 1 + |EncodeQueryUpdate(c.update)|
    ensures DecodeCompressableQueryUpdate(d, p) == Some(Read(c, n))
  {
    var tag := CompressionTag(c);
    AtNext(d, p, EncodeByte(tag), p + 1, EncodeQueryUpdate(c.update));
    ByteRoundTrip(tag, d, p);
    QueryUpdateRoundTrip(c.update, d, p + 1, n);
    RowListsOfFields(c, d, p, n);
  }

  /** Write mirrors read, so every variant survives the round trip,
    * including an unknown tag with its row lists. */
  lemma CompressableQueryUpdateRoundTrip(c: CompressableQueryUpdate, d: seq<byte>, p: nat, n: nat)
    requires WireCompressableQueryUpdate(c)
    requires At(d, p, EncodeCompressableQueryUpdate(c))
    requires n == p + |EncodeCompressableQueryUpdate(c)|
    ensures DecodeCompressableQueryUpdate(d, p) == Some(Read(c, n))
  {
    if c.Brotli? || c.Gzip? {
      CompressedRoundTrip(c, d, p, n);
    } else {
      RowListsRoundTrip(c, d, p, n);
    }
  }

  lemma CompressableQueryUpdateIsSound()
    ensures Sound(DecodeCompressableQueryUpdate)
  {
  }

  /** An array of values that each read back reads back as written. */
  lemma CompressableQueryUpdateArrayRoundTrip(xs: seq<CompressableQueryUpdate>, d: seq<byte>, p: nat, n: nat)
    requires |xs| < 0x8000_0000
    requires forall i :: 0 <= i < |xs| ==> WireCompressableQueryUpdate(xs[i])
    requires At(d, p, EncodeArray(EncodeCompressableQueryUpdate, xs))
    requires n == p + |EncodeArray(EncodeCompressableQueryUpdate, xs)|
    ensures DecodeArray(DecodeCompressableQueryUpdate, d, p) == Some(Read(xs, n))
  {
    AtConcat(d, p, EncodeCount(|xs|), EncodeElems(EncodeCompressableQueryUpdate, xs));
    forall i | 0 <= i < |xs|
      ensures DecodeCompressableQueryUpdate(d, ElemStart(EncodeCompressableQueryUpdate, xs, p + 4, i))
        == Some(Read(xs[i], ElemStart(EncodeCompressableQueryUpdate, xs, p + 4, i + 1)))
    {
      ElemAt(EncodeCompressableQueryUpdate, xs, d, p + 4, i);
      CompressableQueryUpdateRoundTrip(xs[i], d, ElemStart(EncodeCompressableQueryUpdate, xs, p + 4, i), ElemStart(EncodeCompressableQueryUpdate, xs, p + 4, i + 1));
    }
    ArrayRoundTripAt(DecodeCompressableQueryUpdate, EncodeCompressableQueryUpdate, xs, d, p, n);
  }

  /** FCompressableQueryUpdate::ReadFields, on the caller's reader. */
  method ReadCompressableQueryUpdate(reader: BinaryReader) returns (c: CompressableQueryUpdate)
    requires reader.Valid() && DecodeCompressableQueryUpdate(reader.data, reader.position).Some?
    modifies reader
    ensures reader.Valid()
    ensures DecodeCompressableQueryUpdate(reader.data, old(reader.position)) == Some(Read(c, reader.position))
  {
    var tag := reader.ReadByte();
    if tag == 1 || tag == 2 {
      PrimitivesAreSound();
      var compressed := reader.ReadArray(DecodeByte);
      c := if tag == 1 then Brotli(compressed) else Gzip(compressed);
    } else {
      var update := ReadQueryUpdate(reader);
      c := if tag == 0 then Uncompressed(update) else UnknownCompression(tag, update);
    }
  }

  /** FCompressableQueryUpdate::WriteFields, on the caller's writer. */
  method WriteCompressableQueryUpdate(c: CompressableQueryUpdate, writer: BinaryWriter)
    requires WritableCompressableQueryUpdate(c)
    modifies writer, writer.data
    ensures writer.data.bytes == WriteAt(old(writer.data.bytes), old(writer.position), EncodeCompressableQueryUpdate(c))
    ensures writer.position == old(writer.position) + |EncodeCompressableQueryUpdate(c)|
  {
    ghost var b, p := writer.data.bytes, writer.position;
    writer.WriteByte(CompressionTag(c));
    if c.Brotli? || c.Gzip? {
      writer.WriteArray(c.compressed, EncodeByte);
      WriteAtNext(b, p, EncodeByte(CompressionTag(c)), p + 1, EncodeByteArray(c.compressed));
    } else {
      WriteQueryUpdate(c.update, writer);
      WriteAtNext(b, p, EncodeByte(CompressionTag(c)), p + 1, EncodeQueryUpdate(c.update));
    }
  }

  // ---------------------------------------------------------------------
  // FTableUpdate

  /** FTableUpdate: one table's changes. */
  datatype TableUpdate = TableUpdate(tableId: u32, tableName: string, numRows: u64, updates: seq<CompressableQueryUpdate>)

  /** A value that reads back as written: an ASCII name without '\0', and updates that read back in a count that fits the int32 prefix. */
  predicate WireTableUpdate(t: TableUpdate) {
    WireString(t.tableName)
    && |t.updates| < 0x8000_0000 && (forall i :: 0 <= i < |t.updates| ==> WireCompressableQueryUpdate(t.updates[i]))
  }

  /** What the writer demands: a name whose UTF-8 count and an update count that fit the int32 prefixes. */
  predicate WritableTableUpdate(t: TableUpdate) {
    |WrittenBytes(t.tableName)| < 0x8000_0000
    && |t.updates| < 0x8000_0000
  }

  /** ReadFields as a decoder: the uint32 id, the name, the uint64 row count, then the updates. */
  function DecodeTableUpdate(d: seq<byte>, p: nat): (r: Option<Read<TableUpdate>>)
    ensures r.Some? ==> p <= r.value.next <= |d|
  {
    CompressableQueryUpdateIsSound();
    ArrayAdvances(DecodeCompressableQueryUpdate);
    var tableId :- DecodeUInt32(d, p);
    var tableName :- DecodeString(d, tableId.next);
    var numRows :- DecodeUInt64(d, tableName.next);
    var updates :- DecodeArray(DecodeCompressableQueryUpdate, d, numRows.next);
    Some(Read(TableUpdate(tableId.value, tableName.value, numRows.value, updates.value), updates.next))
  }

  /** WriteFields as an encoder: the same fields in the same order. */
  function EncodeTableUpdate(t: TableUpdate): seq<byte> {
    EncodeUInt32(t.tableId) + EncodeString(t.tableName) + EncodeUInt64(t.numRows) + EncodeArray(EncodeCompressableQueryUpdate, t.updates)
  }

  lemma TableUpdateParts(t: TableUpdate, d: seq<byte>, p: nat, q1: nat, q2: nat, q3: nat)
    requires At(d, p, EncodeUInt32(t.tableId) + EncodeString(t.tableName) + EncodeUInt64(t.numRows) + EncodeArray(EncodeCompressableQueryUpdate, t.updates))
    requires q1 == p + 4
    requires q2 == q1 + |EncodeString(t.tableName)|
    requires q3 == q2 + 8
    ensures At(d, p, EncodeUInt32(t.tableId)) && At(d, q1, EncodeString(t.tableName))
    ensures At(d, q2, EncodeUInt64(t.numRows)) && At(d, q3, EncodeArray(EncodeCompressableQueryUpdate, t.updates))
  {
    var e1, e2, e3, e4 := EncodeUInt32(t.tableId), EncodeString(t.tableName), EncodeUInt64(t.numRows), EncodeArray(EncodeCompressableQueryUpdate, t.updates);
    AtNext(d, p, e1 + e2 + e3, q3, e4);
    AtNext(d, p, e1 + e2, q2, e3);
    AtNext(d, p, e1, q1, e2);
  }

  lemma TableUpdateFieldsDecode1(t: TableUpdate, d: seq<byte>, p: nat, q1: nat, q2: nat, q3: nat, q4: nat)
    requires WireTableUpdate(t)
    requires At(d, p, EncodeUInt32(t.tableId)) && At(d, q1, EncodeString(t.tableName))
    requires q1 == p + 4
    requires q2 == q1 + |EncodeString(t.tableName)|
    ensures DecodeUInt32(d, p) == Some(Read(t.tableId, q1))
    ensures DecodeString(d, q1) == Some(Read(t.tableName, q2))
  {
    UInt32RoundTrip(t.tableId, d, p);
    StringRoundTrip(t.tableName, d, q1);
  }

  lemma TableUpdateFieldsDecode2(t: TableUpdate, d: seq<byte>, p: nat, q1: nat, q2: nat, q3: nat, q4: nat)
    requires WireTableUpdate(t)
    requires At(d, q2, EncodeUInt64(t.numRows))
    requires q3 == q2 + 8
    ensures DecodeUInt64(d, q2) == Some(Read(t.numRows, q3))
  {
    UInt64RoundTrip(t.numRows, d, q2);
  }

  lemma TableUpdateFieldsDecode3(t: TableUpdate, d: seq<byte>, p: nat, q1: nat, q2: nat, q3: nat, q4: nat)
    requires WireTableUpdate(t)
    requires At(d, q3, EncodeArray(EncodeCompressableQueryUpdate, t.updates))
    requires q4 == q3 + |EncodeArray(EncodeCompressableQueryUpdate, t.updates)|
    ensures DecodeArray(DecodeCompressableQueryUpdate, d, q3) == Some(Read(t.updates, q4))
  {
    CompressableQueryUpdateArrayRoundTrip(t.updates, d, q3, q4);
  }

  lemma TableUpdateFieldsDecode(t: TableUpdate, d: seq<byte>, p: nat, q1: nat, q2: nat, q3: nat, q4: nat)
    requires WireTableUpdate(t)
    requires At(d, p, EncodeUInt32(t.tableId)) && At(d, q1, EncodeString(t.tableName))
    requires At(d, q2, EncodeUInt64(t.numRows)) && At(d, q3, EncodeArray(EncodeCompressableQueryUpdate, t.updates))
    requires q1 == p + 4
    requires q2 == q1 + |EncodeString(t.tableName)|
    requires q3 == q2 + 8
    requires q4 == q3 + |EncodeArray(EncodeCompressableQueryUpdate, t.updates)|
    ensures DecodeUInt32(d, p) == Some(Read(t.tableId, q1))
    ensures DecodeString(d, q1) == Some(Read(t.tableName, q2))
    ensures DecodeUInt64(d, q2) == Some(Read(t.numRows, q3))
    ensures DecodeArray(DecodeCompressableQueryUpdate, d, q3) == Some(Read(t.updates, q4))
  {
    TableUpdateFieldsDecode1(t, d, p, q1, q2, q3, q4);
    TableUpdateFieldsDecode2(t, d, p, q1, q2, q3, q4);
    TableUpdateFieldsDecode3(t, d, p, q1, q2, q3, q4);
  }

  lemma TableUpdateOfFields(t: TableUpdate, d: seq<byte>, p: nat, q1: nat, q2: nat, q3: nat, q4: nat)
    requires DecodeUInt32(d, p) == Some(Read(t.tableId, q1))
    requires DecodeString(d, q1) == Some(Read(t.tableName, q2))
    requires DecodeUInt64(d, q2) == Some(Read(t.numRows, q3))
    requires DecodeArray(DecodeCompressableQueryUpdate, d, q3) == Some(Read(t.updates, q4))
    ensures DecodeTableUpdate(d, p) == Some(Read(t, q4))
  {
  }

  /** Write mirrors read field by field, so a table update with an ASCII name without '\0' reads back as written. */
  lemma TableUpdateRoundTrip(t: TableUpdate, d: seq<byte>, p: nat, n: nat)
    requires WireTableUpdate(t)
    requires At(d, p, EncodeTableUpdate(t))
    requires n == p + |EncodeTableUpdate(t)|
    ensures DecodeTableUpdate(d, p) == Some(Read(t, n))
  {
    var q1 := p + 4;
    var q2 := q1 + |EncodeString(t.tableName)|;
    var q3 := q2 + 8;
    TableUpdateParts(t, d, p, q1, q2, q3);
    TableUpdateFieldsDecode(t, d, p, q1, q2, q3, n);
    TableUpdateOfFields(t, d, p, q1, q2, q3, n);
  }

  lemma TableUpdateIsSound()
    ensures Sound(DecodeTableUpdate)
  {
  }

  /** An array of values that each read back reads back as written. */
  lemma TableUpdateArrayRoundTrip(xs: seq<TableUpdate>, d: seq<byte>, p: nat, n: nat)
    requires |xs| < 0x8000_0000
    requires forall i :: 0 <= i < |xs| ==> WireTableUpdate(xs[i])
    requires At(d, p, EncodeArray(EncodeTableUpdate, xs))
    requires n == p + |EncodeArray(EncodeTableUpdate, xs)|
    ensures DecodeArray(DecodeTableUpdate, d, p) == Some(Read(xs, n))
  {
    AtConcat(d, p, EncodeCount(|xs|), EncodeElems(EncodeTableUpdate, xs));
    forall i | 0 <= i < |xs|
      ensures DecodeTableUpdate(d, ElemStart(EncodeTableUpdate, xs, p + 4, i))
        == Some(Read(xs[i], ElemStart(EncodeTableUpdate, xs, p + 4, i + 1)))
    {
      ElemAt(EncodeTableUpdate, xs, d, p + 4, i);
      TableUpdateRoundTrip(xs[i], d, ElemStart(EncodeTableUpdate, xs, p + 4, i), ElemStart(EncodeTableUpdate, xs, p + 4, i + 1));
    }
    ArrayRoundTripAt(DecodeTableUpdate, EncodeTableUpdate, xs, d, p, n);
  }

  /** FTableUpdate::ReadFields, on the caller's reader. */
  method ReadTableUpdate(reader: BinaryReader) returns (t: TableUpdate)
    requires reader.Valid() && DecodeTableUpdate(reader.data, reader.position).Some?
    modifies reader
    ensures reader.Valid()
    ensures DecodeTableUpdate(reader.data, old(reader.position)) == Some(Read(t, reader.position))
  {
    var tableId := reader.ReadUInt32();
    var tableName := reader.ReadString();
    var numRows := reader.ReadUInt64();
    CompressableQueryUpdateIsSound();
    var updates := reader.ReadArray(DecodeCompressableQueryUpdate);
    t := TableUpdate(tableId, tableName, numRows, updates);
  }

  /** FTableUpdate::WriteFields, on the caller's writer. */
  method WriteTableUpdate(t: TableUpdate, writer: BinaryWriter)
    requires WritableTableUpdate(t)
    modifies writer, writer.data
    ensures writer.data.bytes == WriteAt(old(writer.data.bytes), old(writer.position), EncodeTableUpdate(t))
    ensures writer.position == old(writer.position) + |EncodeTableUpdate(t)|
  {
    ghost var b, p := writer.data.bytes, writer.position;
    ghost var e1, e2, e3, e4 := EncodeUInt32(t.tableId), EncodeString(t.tableName), EncodeUInt64(t.numRows), EncodeArray(EncodeCompressableQueryUpdate, t.updates);
    writer.WriteUInt32(t.tableId);
    ghost var q1 := writer.position;
    writer.WriteString(t.tableName);
    WriteAtNext(b, p, e1, q1, e2);
    ghost var q2 := writer.position;
    writer.WriteUInt64(t.numRows);
    WriteAtNext(b, p, e1 + e2, q2, e3);
    ghost var q3 := writer.position;
    writer.WriteArray(t.updates, EncodeCompressableQueryUpdate);
    WriteAtNext(b, p, e1 + e2 + e3, q3, e4);
  }

  // ---------------------------------------------------------------------
  // FDatabaseUpdate

  /** FDatabaseUpdate: the changes to every table a message touches. */
  datatype DatabaseUpdate = DatabaseUpdate(tables: seq<TableUpdate>)

  /** A value that reads back as written: table updates that read back, in a count that fits the int32 prefix. */
  predicate WireDatabaseUpdate(db: DatabaseUpdate) {
    |db.tables| < 0x8000_0000 && (forall i :: 0 <= i < |db.tables| ==> WireTableUpdate(db.tables[i]))
  }

  /** What the writer demands: a table count that fits the int32 prefix. */
  predicate WritableDatabaseUpdate(db: DatabaseUpdate) {
    |db.tables| < 0x8000_0000
  }

  /** ReadFields as a decoder: the array of table updates. */
  function DecodeDatabaseUpdate(d: seq<byte>, p: nat): (r: Option<Read<DatabaseUpdate>>)
    ensures r.Some? ==> p <= r.value.next <= |d|
  {
    TableUpdateIsSound();
    ArrayAdvances(DecodeTableUpdate);
    var tables :- DecodeArray(DecodeTableUpdate, d, p);
    Some(Read(DatabaseUpdate(tables.value), tables.next))
  }

  /** WriteFields as an encoder: the same fields in the same order. */
  function EncodeDatabaseUpdate(db: DatabaseUpdate): seq<byte> {
    EncodeArray(EncodeTableUpdate, db.tables)
  }

  /** A database update whose tables read back reads back as written. */
  lemma DatabaseUpdateRoundTrip(db: DatabaseUpdate, d: seq<byte>, p: nat, n: nat)
    requires WireDatabaseUpdate(db)
    requires At(d, p, EncodeDatabaseUpdate(db))
    requires n == p + |EncodeDatabaseUpdate(db)|
    ensures DecodeDatabaseUpdate(d, p) == Some(Read(db, n))
  {
    TableUpdateArrayRoundTrip(db.tables, d, p, n);
  }

  /** FDatabaseUpdate::ReadFields, on the caller's reader. */
  method ReadDatabaseUpdate(reader: BinaryReader) returns (db: DatabaseUpdate)
    requires reader.Valid() && DecodeDatabaseUpdate(reader.data, reader.position).Some?
    modifies reader
    ensures reader.Valid()
    ensures DecodeDatabaseUpdate(reader.data, old(reader.position)) == Some(Read(db, reader.position))
  {
    TableUpdateIsSound();
    var tables := reader.ReadArray(DecodeTableUpdate);
    db := DatabaseUpdate(tables);
  }

  /** FDatabaseUpdate::WriteFields, on the caller's writer. */
  method WriteDatabaseUpdate(db: DatabaseUpdate, writer: BinaryWriter)
    requires WritableDatabaseUpdate(db)
    modifies writer, writer.data
    ensures writer.data.bytes == WriteAt(old(writer.data.bytes), old(writer.position), EncodeDatabaseUpdate(db))
    ensures writer.position == old(writer.position) + |EncodeDatabaseUpdate(db)|
  {
    writer.WriteArray(db.tables, EncodeTableUpdate);
  }

  // ---------------------------------------------------------------------
  // FOneOffTable

  /** FOneOffTable: one table's rows in the answer to a one-off query. */
  datatype OneOffTable = OneOffTable(tableName: string, rows: BsatnRowList)

  /** A value that reads back as written: an ASCII name without '\0' and rows that read back. */
  predicate WireOneOffTable(t: OneOffTable) {
    WireString(t.tableName)
    && WireBsatnRowList(t.rows)
  }

  /** What the writer demands: a name whose UTF-8 count fits the int32 prefix, and the rows'. */
  predicate WritableOneOffTable(t: OneOffTable) {
    |WrittenBytes(t.tableName)| < 0x8000_0000
    && WritableBsatnRowList(t.rows)
  }

  /** ReadFields as a decoder: the name, then the rows. */
  function DecodeOneOffTable(d: seq<byte>, p: nat): (r: Option<Read<OneOffTable>>)
    ensures r.Some? ==> p <= r.value.next <= |d|
  {
    var tableName :- DecodeString(d, p);
    var rows :- DecodeBsatnRowList(d, tableName.next);
    Some(Read(OneOffTable(tableName.value, rows.value), rows.next))
  }

  /** WriteFields as an encoder: the same fields in the same order. */
  function EncodeOneOffTable(t: OneOffTable): seq<byte> {
    EncodeString(t.tableName) + EncodeBsatnRowList(t.rows)
  }

  lemma OneOffTableParts(t: OneOffTable, d: seq<byte>, p: nat, q1: nat)
    requires At(d, p, EncodeString(t.tableName) + EncodeBsatnRowList(t.rows))
    requires q1 == p + |EncodeString(t.tableName)|
    ensures At(d, p, EncodeString(t.tableName)) && At(d, q1, EncodeBsatnRowList(t.rows))
  {
    var e1, e2 := EncodeString(t.tableName), EncodeBsatnRowList(t.rows);
    AtNext(d, p, e1, q1, e2);
  }

  lemma OneOffTableFieldsDecode1(t: OneOffTable, d: seq<byte>, p: nat, q1: nat, q2: nat)
    requires WireOneOffTable(t)
    requires At(d, p, EncodeString(t.tableName))
    requires q1 == p + |EncodeString(t.tableName)|
    ensures DecodeString(d, p) == Some(Read(t.tableName, q1))
  {
    StringRoundTrip(t.tableName, d, p);
  }

  lemma OneOffTableFieldsDecode2(t: OneOffTable, d: seq<byte>, p: nat, q1: nat, q2: nat)
    requires WireOneOffTable(t)
    requires At(d, q1, EncodeBsatnRowList(t.rows))
    requires q2 == q1 + |EncodeBsatnRowList(t.rows)|
    ensures DecodeBsatnRowList(d, q1) == Some(Read(t.rows, q2))
  {
    BsatnRowListRoundTrip(t.rows, d, q1, q2);
  }

  lemma OneOffTableFieldsDecode(t: OneOffTable, d: seq<byte>, p: nat, q1: nat, q2: nat)
    requires WireOneOffTable(t)
    requires At(d, p, EncodeString(t.tableName)) && At(d, q1, EncodeBsatnRowList(t.rows))
    requires q1 == p + |EncodeString(t.tableName)|
    requires q2 == q1 + |EncodeBsatnRowList(t.rows)|
    ensures DecodeString(d, p) == Some(Read(t.tableName, q1))
    ensures DecodeBsatnRowList(d, q1) == Some(Read(t.rows, q2))
  {
    OneOffTableFieldsDecode1(t, d, p, q1, q2);
    OneOffTableFieldsDecode2(t, d, p, q1, q2);
  }

  lemma OneOffTableOfFields(t: OneOffTable, d: seq<byte>, p: nat, q1: nat, q2: nat)
    requires DecodeString(d, p) == Some(Read(t.tableName, q1))
    requires DecodeBsatnRowList(d, q1) == Some(Read(t.rows, q2))
    ensures DecodeOneOffTable(d, p) == Some(Read(t, q2))
  {
  }

  /** A one-off table with an ASCII name without '\0' reads back as written. */
  lemma OneOffTableRoundTrip(t: OneOffTable, d: seq<byte>, p: nat, n: nat)
    requires WireOneOffTable(t)
    requires At(d, p, EncodeOneOffTable(t))
    requires n == p + |EncodeOneOffTable(t)|
    ensures DecodeOneOffTable(d, p) == Some(Read(t, n))
  {
    var q1 := p + |EncodeString(t.tableName)|;
    OneOffTableParts(t, d, p, q1);
    OneOffTableFieldsDecode(t, d, p, q1, n);
    OneOffTableOfFields(t, d, p, q1, n);
  }

  lemma OneOffTableIsSound()
    ensures Sound(DecodeOneOffTable)
  {
  }

  /** An array of values that each read back reads back as written. */
  lemma OneOffTableArrayRoundTrip(xs: seq<OneOffTable>, d: seq<byte>, p: nat, n: nat)
    requires |xs| < 0x8000_0000
    requires forall i :: 0 <= i < |xs| ==> WireOneOffTable(xs[i])
    requires At(d, p, EncodeArray(EncodeOneOffTable, xs))
    requires n == p + |EncodeArray(EncodeOneOffTable, xs)|
    ensures DecodeArray(DecodeOneOffTable, d, p) == Some(Read(xs, n))
  {
    AtConcat(d, p, EncodeCount(|xs|), EncodeElems(EncodeOneOffTable, xs));
    forall i | 0 <= i < |xs|
      ensures DecodeOneOffTable(d, ElemStart(EncodeOneOffTable, xs, p + 4, i))
        == Some(Read(xs[i], ElemStart(EncodeOneOffTable, xs, p + 4, i + 1)))
    {
      ElemAt(EncodeOneOffTable, xs, d, p + 4, i);
      OneOffTableRoundTrip(xs[i], d, ElemStart(EncodeOneOffTable, xs, p + 4, i), ElemStart(EncodeOneOffTable, xs, p + 4, i + 1));
    }
    ArrayRoundTripAt(DecodeOneOffTable, EncodeOneOffTable, xs, d, p, n);
  }

  /** FOneOffTable::ReadFields, on the caller's reader. */
  method ReadOneOffTable(reader: BinaryReader) returns (t: OneOffTable)
    requires reader.Valid() && DecodeOneOffTable(reader.data, reader.position).Some?
    modifies reader
    ensures reader.Valid()
    ensures DecodeOneOffTable(reader.data, old(reader.position)) == Some(Read(t, reader.position))
  {
    var tableName := reader.ReadString();
    var rows := ReadBsatnRowList(reader);
    t := OneOffTable(tableName, rows);
  }

  /** FOneOffTable::WriteFields, on the caller's writer. */
  method WriteOneOffTable(t: OneOffTable, writer: BinaryWriter)
    requires WritableOneOffTable(t)
    modifies writer, writer.data
    ensures writer.data.bytes == WriteAt(old(writer.data.bytes), old(writer.position), EncodeOneOffTable(t))
    ensures writer.position == old(writer.position) + |EncodeOneOffTable(t)|
  {
    ghost var b, p := writer.data.bytes, writer.position;
    ghost var e1, e2 := EncodeString(t.tableName), EncodeBsatnRowList(t.rows);
    writer.WriteString(t.tableName);
    ghost var q1 := writer.position;
    WriteBsatnRowList(t.rows, writer);
    WriteAtNext(b, p, e1, q1, e2);
  }

  // ---------------------------------------------------------------------
  // FSubscribeRows

  /** FSubscribeRows: the rows of one table a subscription covers. */
  datatype SubscribeRows = SubscribeRows(tableId: u32, tableName: string, tableRows: TableUpdate)

  /** A value that reads back as written: an ASCII name without '\0' and a table update that reads back. */
  predicate WireSubscribeRows(s: SubscribeRows) {
    WireString(s.tableName)
    && WireTableUpdate(s.tableRows)
  }

  /** What the writer demands: a name whose UTF-8 count fits the int32 prefix, and the table update's. */
  predicate WritableSubscribeRows(s: SubscribeRows) {
    |WrittenBytes(s.tableName)| < 0x8000_0000
    && WritableTableUpdate(s.tableRows)
  }

  /** ReadFields as a decoder: the uint32 table id, the name, then the table update. */
  function DecodeSubscribeRows(d: seq<byte>, p: nat): (r: Option<Read<SubscribeRows>>)
    ensures r.Some? ==> p <= r.value.next <= |d|
  {
    var tableId :- DecodeUInt32(d, p);
    var tableName :- DecodeString(d, tableId.next);
    var tableRows :- DecodeTableUpdate(d, tableName.next);
    Some(Read(SubscribeRows(tableId.value, tableName.value, tableRows.value), tableRows.next))
  }

  /** WriteFields as an encoder: the same fields in the same order. */
  function EncodeSubscribeRows(s: SubscribeRows): seq<byte> {
    EncodeUInt32(s.tableId) + EncodeString(s.tableName) + EncodeTableUpdate(s.tableRows)
  }

  lemma SubscribeRowsParts(s: SubscribeRows, d: seq<byte>, p: nat, q1: nat, q2: nat)
    requires At(d, p, EncodeUInt32(s.tableId) + EncodeString(s.tableName) + EncodeTableUpdate(s.tableRows))
    requires q1 == p + 4
    requires q2 == q1 + |EncodeString(s.tableName)|
    ensures At(d, p, EncodeUInt32(s.tableId)) && At(d, q1, EncodeString(s.tableName))
    ensures At(d, q2, EncodeTableUpdate(s.tableRows))
  {
    var e1, e2, e3 := EncodeUInt32(s.tableId), EncodeString(s.tableName), EncodeTableUpdate(s.tableRows);
    AtNext(d, p, e1 + e2, q2, e3);
    AtNext(d, p, e1, q1, e2);
  }

  lemma SubscribeRowsFieldsDecode1(s: SubscribeRows, d: seq<byte>, p: nat, q1: nat, q2: nat, q3: nat)
    requires WireSubscribeRows(s)
    requires At(d, p, EncodeUInt32(s.tableId)) && At(d, q1, EncodeString(s.tableName))
    requires q1 == p + 4
    requires q2 == q1 + |EncodeString(s.tableName)|
    ensures DecodeUInt32(d, p) == Some(Read(s.tableId, q1))
    ensures DecodeString(d, q1) == Some(Read(s.tableName, q2))
  {
    UInt32RoundTrip(s.tableId, d, p);
    StringRoundTrip(s.tableName, d, q1);
  }

  lemma SubscribeRowsFieldsDecode2(s: SubscribeRows, d: seq<byte>, p: nat, q1: nat, q2: nat, q3: nat)
    requires WireSubscribeRows(s)
    requires At(d, q2, EncodeTableUpdate(s.tableRows))
    requires q3 == q2 + |EncodeTableUpdate(s.tableRows)|
    ensures DecodeTableUpdate(d, q2) == Some(Read(s.tableRows, q3))
  {
    TableUpdateRoundTrip(s.tableRows, d, q2, q3);
  }

  lemma SubscribeRowsFieldsDecode(s: SubscribeRows, d: seq<byte>, p: nat, q1: nat, q2: nat, q3: nat)
    requires WireSubscribeRows(s)
    requires At(d, p, EncodeUInt32(s.tableId)) && At(d, q1, EncodeString(s.tableName))
    requires At(d, q2, EncodeTableUpdate(s.tableRows))
    requires q1 == p + 4
    requires q2 == q1 + |EncodeString(s.tableName)|
    requires q3 == q2 + |EncodeTableUpdate(s.tableRows)|
    ensures DecodeUInt32(d, p) == Some(Read(s.tableId, q1))
    ensures DecodeString(d, q1) == Some(Read(s.tableName, q2))
    ensures DecodeTableUpdate(d, q2) == Some(Read(s.tableRows, q3))
  {
    SubscribeRowsFieldsDecode1(s, d, p, q1, q2, q3);
    SubscribeRowsFieldsDecode2(s, d, p, q1, q2, q3);
  }

  lemma SubscribeRowsOfFields(s: SubscribeRows, d: seq<byte>, p: nat, q1: nat, q2: nat, q3: nat)
    requires DecodeUInt32(d, p) == Some(Read(s.tableId, q1))
    requires DecodeString(d, q1) == Some(Read(s.tableName, q2))
    requires DecodeTableUpdate(d, q2) == Some(Read(s.tableRows, q3))
    ensures DecodeSubscribeRows(d, p) == Some(Read(s, q3))
  {
  }

  /** Subscribed rows with an ASCII name without '\0' read back as written. */
  lemma SubscribeRowsRoundTrip(s: SubscribeRows, d: seq<byte>, p: nat, n: nat)
    requires WireSubscribeRows(s)
    requires At(d, p, EncodeSubscribeRows(s))
    requires n == p + |EncodeSubscribeRows(s)|
    ensures DecodeSubscribeRows(d, p) == Some(Read(s, n))
  {
    var q1 := p + 4;
    var q2 := q1 + |EncodeString(s.tableName)|;
    SubscribeRowsParts(s, d, p, q1, q2);
    SubscribeRowsFieldsDecode(s, d, p, q1, q2, n);
    SubscribeRowsOfFields(s, d, p, q1, q2, n);
  }

  /** FSubscribeRows::ReadFields, on the caller's reader. */
  method ReadSubscribeRows(reader: BinaryReader) returns (s: SubscribeRows)
    requires reader.Valid() && DecodeSubscribeRows(reader.data, reader.position).Some?
    modifies reader
    ensures reader.Valid()
    ensures DecodeSubscribeRows(reader.data, old(reader.position)) == Some(Read(s, reader.position))
  {
    var tableId := reader.ReadUInt32();
    var tableName := reader.ReadString();
    var tableRows := ReadTableUpdate(reader);
    s := SubscribeRows(tableId, tableName, tableRows);
  }

  /** FSubscribeRows::WriteFields, on the caller's writer. */
  method WriteSubscribeRows(s: SubscribeRows, writer: BinaryWriter)
    requires WritableSubscribeRows(s)
    modifies writer, writer.data
    ensures writer.data.bytes == WriteAt(old(writer.data.bytes), old(writer.position), EncodeSubscribeRows(s))
    ensures writer.position == old(writer.position) + |EncodeSubscribeRows(s)|
  {
    ghost var b, p := writer.data.bytes, writer.position;
    ghost var e1, e2, e3 := EncodeUInt32(s.tableId), EncodeString(s.tableName), EncodeTableUpdate(s.tableRows);
    writer.WriteUInt32(s.tableId);
    ghost var q1 := writer.position;
    writer.WriteString(s.tableName);
    WriteAtNext(b, p, e1, q1, e2);
    ghost var q2 := writer.position;
    WriteTableUpdate(s.tableRows, writer);
    WriteAtNext(b, p, e1 + e2, q2, e3);
  }
}
