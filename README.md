# SpacetimeDB Unreal client core in Dafny

This project models the core of the SpacetimeDB client plugin for Unreal Engine and proves properties of the model. Four parts make up that core:

- **BSATN.** The binary encoding the client and server exchange. `FBinaryReader` is a bounds-checked cursor over a byte buffer. `FBinaryWriter` is a growable buffer with a writable position. Between them they define:
  - little-endian fixed-width integers;
  - flag-prefixed optionals;
  - int32-length-prefixed strings and arrays;
  - 128-bit and 256-bit values written upper half first.
- **The value types that travel on the wire:**
  - the wide integers `FU128`, `FI128`, `FU256` and `FI256`, with their orderings and byte exports;
  - the byte and hex helpers of `FByteUtils`;
  - `FStdbConnectionId` and `FStdbIdentity`;
  - the microsecond scalars `FTimestamp` and `FTimeDuration`;
  - `FQueryId`.
- **The message unions.** `FClientMessage` and `FServerMessage`, with every payload struct and the nested unions `RowSizeHint`, `FCompressableQueryUpdate` and `FUpdateStatus`.
- **The sequential slice of `FStdbClientBase` and the `UStdbNetworkManager` registry.** The client's slice is:
  - the inbound frame gate;
  - the frame decoding;
  - one pass of the worker loop, which drains the raw queue into the processed queue and the outbound queue into the socket;
  - `FrameTick`;
  - URL and header construction;
  - connection-id rendering.

## How the model is built

**Pure specification.** Each wire format has a pure specification in `codec.dfy`, `wide_codec.dfy` and the message modules:
- A decoder is a function from a buffer and a position to an optional `Read(value, next)`.
- An encoder is a function from a value to bytes.
- `At(d, p, e)` says the buffer `d` holds the bytes `e` from position `p`.
- Every round trip is stated as "wherever the encoding is stored, the decoder reads the value back and stops right after it".

**Reader and writer classes.** The source's reader and writer become classes:
- `BinaryReader` holds its bytes and a position.
- `BinaryWriter` shares a `ByteArray` with its caller and has a position of its own.

Every `Read*` and `Write*` method is proved against the pure specification. The constructor `Copy` models C++ passing a reader or writer by value. Through it the model reproduces the source's behaviour where most `FClientMessage` payloads, `FInitialSubscriptionData::WriteField` and `FIdentityTokenData::WriteField` take the cursor by value. The bytes land in the caller's array, but the caller's position stays where it was.

**Client and registry classes.** `StdbClient` and `Manager` are classes whose methods update queues and flags in place. The socket is reduced to ghost logs:
- the connection requests made;
- the frames sent;
- the close codes used;
- the `OnConnect` greetings.

**Quirks of the source reproduced and proved as properties:**
- `ReadString` widens each byte to a character without UTF-8 decoding, and a zero byte appends nothing. `WriteString` writes only the text before the first '\0'. So only ASCII strings without '\0' survive a round trip.
- `FI256::operator<` compares the lower halves as signed numbers, so it is a total order but not the numeric one.
- The 128-bit wire layout swaps the two 64-bit words of the in-memory layout.
- `DecompressAndDeserialize` ignores the frame's first byte and switches on the configured compression.
- Over-size frames close the socket with code 1013.
- `RowSizeHint` and `FUpdateStatus` values with an unknown tag do not survive a round trip. An `FCompressableQueryUpdate` with an unknown tag does.

## Model

| member | source | states |
|---|---|---|
| Bytes.ShiftedBytesAreBE | UnrealBlackholio/Plugins/SpacetimeDB/Source/SpacetimeDB/Public/FByteUtils.h:10-20 | shifting a 64-bit value right by 56, 48, ..., 0 bits and keeping each low byte gives its 8-byte big-endian layout |
| Bytes.SignedBits | UnrealBlackholio/Plugins/SpacetimeDB/Source/SpacetimeDB/Private/FBinaryWriter.cpp:119-122 | casting a signed value to the unsigned type of the same width and back gives the value again |
| Bytes.BitsSigned | UnrealBlackholio/Plugins/SpacetimeDB/Source/SpacetimeDB/Private/FBinaryReader.cpp:99-102 | casting an unsigned pattern to the signed type of the same width and back gives the pattern again |
| Hex.DigitValueOfDigit | UnrealBlackholio/Plugins/SpacetimeDB/Source/SpacetimeDB/Public/FByteUtils.h:69 | the engine's hex-digit parser gives back the nibble of every digit printed, upper or lower case |
| Hex.Parse | UnrealBlackholio/Plugins/SpacetimeDB/Source/SpacetimeDB/Public/FByteUtils.h:61-70 | text of length n gives n / 2 bytes; byte i is the value of characters 2i and 2i+1, the first one the high nibble |
| Hex.ParsePrint | UnrealBlackholio/Plugins/SpacetimeDB/Source/SpacetimeDB/Public/FByteUtils.h:58-72 | parsing the two-digit printout of some bytes gives those bytes back, in either case |
| Hex.PrintHasNoX | UnrealBlackholio/Plugins/SpacetimeDB/Source/SpacetimeDB/Public/FByteUtils.h:60 | printed hex text contains no 'x' or 'X', so removing "0x" marks cannot touch it |
| UInt128.ValueInjective | UnrealBlackholio/Plugins/SpacetimeDB/Source/SpacetimeDB/Public/FU128.h:43-46 | operator==: two values are equal exactly when the numbers their halves denote are equal |
| UInt128.LessIsNumeric | UnrealBlackholio/Plugins/SpacetimeDB/Source/SpacetimeDB/Public/FU128.h:33-36 | operator< (upper halves first, lower halves on a tie) holds exactly when the first 128-bit number is smaller |
| UInt128.GreaterIsConverse | UnrealBlackholio/Plugins/SpacetimeDB/Source/SpacetimeDB/Public/FU128.h:38-41 | operator> holds exactly when operator< holds with the operands swapped |
| UInt128.CompareTo | UnrealBlackholio/Plugins/SpacetimeDB/Source/SpacetimeDB/Public/FU128.h:58-63 | the result is -1, 0 or 1 exactly when the first number is below, equal to or above the second |
| UInt128.ToBytesBEIsBE | UnrealBlackholio/Plugins/SpacetimeDB/Source/SpacetimeDB/Public/FU128.h:70-91 | ToBytesBE is the 16-byte big-endian layout of the number |
| UInt128.ToBytesLEIsLE | UnrealBlackholio/Plugins/SpacetimeDB/Source/SpacetimeDB/Public/FU128.h:93-102 | ToBytesLE is the 16-byte little-endian layout of the number and is ToBytesBE reversed |
| UInt128.ToStringPrintsBE | UnrealBlackholio/Plugins/SpacetimeDB/Source/SpacetimeDB/Public/FU128.h:65-68 | ToString is "0x" followed by the bytes of ToBytesBE as upper-case digit pairs |
| Int128.ValueInjective | UnrealBlackholio/Plugins/SpacetimeDB/Source/SpacetimeDB/Public/FI128.h:59-62 | operator==: two values are equal exactly when the signed numbers they denote are equal |
| Int128.IsNegativeIsSign | UnrealBlackholio/Plugins/SpacetimeDB/Source/SpacetimeDB/Public/FI128.h:31-34 | IsNegative (the upper half negative as int64) holds exactly when the 128-bit number is negative |
| Int128.LessIsNumeric | UnrealBlackholio/Plugins/SpacetimeDB/Source/SpacetimeDB/Public/FI128.h:37-46 | operator< (sign first, then upper and lower halves) holds exactly when the first signed number is smaller |
| Int128.GreaterIsConverse | UnrealBlackholio/Plugins/SpacetimeDB/Source/SpacetimeDB/Public/FI128.h:48-57 | operator> holds exactly when operator< holds with the operands swapped |
| Int128.CompareTo | UnrealBlackholio/Plugins/SpacetimeDB/Source/SpacetimeDB/Public/FI128.h:74-79 | the result is -1, 0 or 1 exactly when the first number is below, equal to or above the second |
| Int128.ToBytesBEIsBE | UnrealBlackholio/Plugins/SpacetimeDB/Source/SpacetimeDB/Public/FI128.h:86-107 | ToBytesBE is the big-endian layout of the 128-bit two's complement pattern |
| Int128.ToBytesLEIsLE | UnrealBlackholio/Plugins/SpacetimeDB/Source/SpacetimeDB/Public/FI128.h:109-118 | ToBytesLE is the little-endian layout of the pattern and is ToBytesBE reversed |
| Int128.BitsIsTwosComplement | UnrealBlackholio/Plugins/SpacetimeDB/Source/SpacetimeDB/Public/FI128.h:86-107 | the pattern written is the number itself when non-negative and the number plus 2^128 when negative |
| Int128.ToStringPrintsBE | UnrealBlackholio/Plugins/SpacetimeDB/Source/SpacetimeDB/Public/FI128.h:81-84 | ToString is "0x" followed by the bytes of ToBytesBE as upper-case digit pairs |
| UInt256.ValueInjective | UnrealBlackholio/Plugins/SpacetimeDB/Source/SpacetimeDB/Public/FU256.h:42-45 | operator==: two values are equal exactly when the 256-bit numbers they denote are equal |
| UInt256.LessIsNumeric | UnrealBlackholio/Plugins/SpacetimeDB/Source/SpacetimeDB/Public/FU256.h:32-35 | operator< holds exactly when the first 256-bit number is smaller |
| UInt256.GreaterIsConverse | UnrealBlackholio/Plugins/SpacetimeDB/Source/SpacetimeDB/Public/FU256.h:37-40 | operator> holds exactly when operator< holds with the operands swapped |
| UInt256.CompareTo | UnrealBlackholio/Plugins/SpacetimeDB/Source/SpacetimeDB/Public/FU256.h:57-62 | the result is -1, 0 or 1 exactly when the first number is below, equal to or above the second |
| UInt256.ToBytesBEIsBE | UnrealBlackholio/Plugins/SpacetimeDB/Source/SpacetimeDB/Public/FU256.h:71-80 | ToBytesBE is the 32-byte big-endian layout of the number |
| UInt256.ToBytesLEIsLE | UnrealBlackholio/Plugins/SpacetimeDB/Source/SpacetimeDB/Public/FU256.h:82-91 | ToBytesLE is the 32-byte little-endian layout of the number and is ToBytesBE reversed |
| UInt256.ToStringPrintsBE | UnrealBlackholio/Plugins/SpacetimeDB/Source/SpacetimeDB/Public/FU256.h:64-69 | ToString ("0x" and each half's digits without its own "0x") is "0x" followed by ToBytesBE as upper-case digit pairs |
| Int256.IsNegativeIsSign | UnrealBlackholio/Plugins/SpacetimeDB/Source/SpacetimeDB/Public/FI256.h:32-35 | IsNegative holds exactly when the 256-bit number is negative |
| Int256.LessIsLexicographic | UnrealBlackholio/Plugins/SpacetimeDB/Source/SpacetimeDB/Public/FI256.h:38-47 | operator< orders by the signed value of the upper half, then by the signed value of the lower half |
| Int256.LessIrreflexive | UnrealBlackholio/Plugins/SpacetimeDB/Source/SpacetimeDB/Public/FI256.h:38-47 | no value is below itself |
| Int256.LessTransitive | UnrealBlackholio/Plugins/SpacetimeDB/Source/SpacetimeDB/Public/FI256.h:38-47 | operator< is transitive |
| Int256.LessTotal | UnrealBlackholio/Plugins/SpacetimeDB/Source/SpacetimeDB/Public/FI256.h:38-47 | any two different values are ordered one way or the other |
| Int256.GreaterIsConverse | UnrealBlackholio/Plugins/SpacetimeDB/Source/SpacetimeDB/Public/FI256.h:49-58 | operator> holds exactly when operator< holds with the operands swapped |
| Int256.LessIsNumericForLowerHalvesOfOneSign | UnrealBlackholio/Plugins/SpacetimeDB/Source/SpacetimeDB/Public/FI256.h:38-47 | when both lower halves have the same top bit, operator< is the order of the 256-bit numbers |
| Int256.LessIsNotNumeric | UnrealBlackholio/Plugins/SpacetimeDB/Source/SpacetimeDB/Public/FI256.h:46 | because the lower halves are compared as signed, the number 2^127 sorts below 0 |
| Int256.CompareTo | UnrealBlackholio/Plugins/SpacetimeDB/Source/SpacetimeDB/Public/FI256.h:75-80 | the result is -1, 0 or 1 exactly when operator< puts the first value below, equal to or above the second |
| Int256.ToBytesBEIsBE | UnrealBlackholio/Plugins/SpacetimeDB/Source/SpacetimeDB/Public/FI256.h:90-99 | ToBytesBE is the big-endian layout of the 256-bit two's complement pattern |
| Int256.ToBytesLEIsLE | UnrealBlackholio/Plugins/SpacetimeDB/Source/SpacetimeDB/Public/FI256.h:101-110 | ToBytesLE is the little-endian layout of the pattern and is ToBytesBE reversed |
| Int256.BitsIsTwosComplement | UnrealBlackholio/Plugins/SpacetimeDB/Source/SpacetimeDB/Public/FI256.h:90-99 | the pattern is the number when non-negative and the number plus 2^256 when negative |
| Int256.ToStringPrintsBE | UnrealBlackholio/Plugins/SpacetimeDB/Source/SpacetimeDB/Public/FI256.h:82-88 | ToString is "0x" followed by the bytes of ToBytesBE as upper-case digit pairs |
| ByteUtils.ReadUInt64BE | UnrealBlackholio/Plugins/SpacetimeDB/Source/SpacetimeDB/Public/FByteUtils.h:10-20 | the value read has the eight bytes at the offset as its big-endian layout |
| ByteUtils.ReadFU128FromBE | UnrealBlackholio/Plugins/SpacetimeDB/Source/SpacetimeDB/Public/FByteUtils.h:22-29 | the value read has the sixteen bytes at the offset as its ToBytesBE |
| ByteUtils.ReadFU128FromLE | UnrealBlackholio/Plugins/SpacetimeDB/Source/SpacetimeDB/Public/FByteUtils.h:31-38 | the value read has the sixteen bytes at the offset as its ToBytesLE |
| ByteUtils.ReadFU256FromBE | UnrealBlackholio/Plugins/SpacetimeDB/Source/SpacetimeDB/Public/FByteUtils.h:40-47 | the value read from exactly 32 bytes has them as its ToBytesBE |
| ByteUtils.ReadFU256FromLE | UnrealBlackholio/Plugins/SpacetimeDB/Source/SpacetimeDB/Public/FByteUtils.h:49-56 | the value read from exactly 32 bytes has them as its ToBytesLE |
| ByteUtils.U128RoundTrips | UnrealBlackholio/Plugins/SpacetimeDB/Source/SpacetimeDB/Public/FByteUtils.h:22-38 | reading back a value's ToBytesBE or ToBytesLE gives the value |
| ByteUtils.U128ParseIff | UnrealBlackholio/Plugins/SpacetimeDB/Source/SpacetimeDB/Public/FByteUtils.h:22-38 | sixteen bytes parse to a value exactly when they are that value's layout, in either order |
| ByteUtils.U256RoundTrips | UnrealBlackholio/Plugins/SpacetimeDB/Source/SpacetimeDB/Public/FByteUtils.h:40-56 | reading back a 256-bit value's ToBytesBE or ToBytesLE gives the value |
| ByteUtils.RemoveHexMarks | UnrealBlackholio/Plugins/SpacetimeDB/Source/SpacetimeDB/Public/FByteUtils.h:60 | removing the "0x" marks never lengthens the text |
| ByteUtils.RemoveHexMarksNoX | UnrealBlackholio/Plugins/SpacetimeDB/Source/SpacetimeDB/Public/FByteUtils.h:60 | text with no 'x' or 'X' is left unchanged |
| ByteUtils.RemoveHexMarksDoesNotRescan | UnrealBlackholio/Plugins/SpacetimeDB/Source/SpacetimeDB/Public/FByteUtils.h:60 | marks are removed in one left-to-right pass: "00xx" becomes "0x" |
| ByteUtils.HexToBytes | UnrealBlackholio/Plugins/SpacetimeDB/Source/SpacetimeDB/Public/FByteUtils.h:58-72 | the number of bytes is half the length of the text without its marks, rounded down |
| ByteUtils.HexStringToBytes | UnrealBlackholio/Plugins/SpacetimeDB/Source/SpacetimeDB/Public/FByteUtils.h:58-72 | the loop gives half as many bytes as cleaned characters, byte i holding digit 2i as high nibble and digit 2i+1 as low nibble |
| ByteUtils.HexToBytesOfPrinted | UnrealBlackholio/Plugins/SpacetimeDB/Source/SpacetimeDB/Public/FByteUtils.h:58-72 | printed bytes, with or without a leading "0x", parse back to the same bytes |
| ByteUtils.HexOfU128String | UnrealBlackholio/Plugins/SpacetimeDB/Source/SpacetimeDB/Public/FByteUtils.h:58-72 | parsing FU128::ToString gives its ToBytesBE |
| ByteUtils.HexOfU256String | UnrealBlackholio/Plugins/SpacetimeDB/Source/SpacetimeDB/Public/FByteUtils.h:58-72 | parsing FU256::ToString gives its ToBytesBE |
| ConnectionIds.ParsedLE | UnrealBlackholio/Plugins/SpacetimeDB/Source/SpacetimeDB/Public/FStdbConnectionId.h:28-37 | the zero test after a little-endian parse is a test for sixteen zero bytes |
| ConnectionIds.ParsedBE | UnrealBlackholio/Plugins/SpacetimeDB/Source/SpacetimeDB/Public/FStdbConnectionId.h:39-48 | the zero test after a big-endian parse is a test for sixteen zero bytes |
| ConnectionIds.FromLittleEndian | UnrealBlackholio/Plugins/SpacetimeDB/Source/SpacetimeDB/Public/FStdbConnectionId.h:28-37 | an id comes back exactly when there are 16 bytes that are not all zero, and its ToBytesLE is those bytes |
| ConnectionIds.FromBigEndian | UnrealBlackholio/Plugins/SpacetimeDB/Source/SpacetimeDB/Public/FStdbConnectionId.h:39-48 | an id comes back exactly when there are 16 bytes that are not all zero |
| ConnectionIds.FromBigEndianLayout | UnrealBlackholio/Plugins/SpacetimeDB/Source/SpacetimeDB/Public/FStdbConnectionId.h:39-48 | the id FromBigEndian returns has the input as its ToBytesBE |
| ConnectionIds.FromHexString | UnrealBlackholio/Plugins/SpacetimeDB/Source/SpacetimeDB/Public/FStdbConnectionId.h:50-54 | the result is the big-endian parse of the hex text's bytes; an id comes back only for 32 or 33 cleaned characters |
| ConnectionIds.CompareTo | UnrealBlackholio/Plugins/SpacetimeDB/Source/SpacetimeDB/Public/FStdbConnectionId.h:61-64 | the result is -1, 0 or 1 exactly as the 128-bit values are below, equal or above |
| ConnectionIds.HexRoundTrip | UnrealBlackholio/Plugins/SpacetimeDB/Source/SpacetimeDB/Public/FStdbConnectionId.h:50-59 | every non-zero id survives ToString followed by FromHexString |
| ConnectionIds.BytesRoundTrip | UnrealBlackholio/Plugins/SpacetimeDB/Source/SpacetimeDB/Public/FStdbConnectionId.h:28-48 | every non-zero id survives its big-endian and its little-endian layout |
| ConnectionIds.LittleEndianIsReversedBigEndian | UnrealBlackholio/Plugins/SpacetimeDB/Source/SpacetimeDB/Public/FStdbConnectionId.h:28-48 | reading the reversed bytes little-endian gives what reading them big-endian gives |
| Identities.FromLittleEndian | UnrealBlackholio/Plugins/SpacetimeDB/Source/SpacetimeDB/Public/FStdbIdentity.h:30-33 | the identity has the 32 bytes as its ToBytesLE |
| Identities.FromBigEndian | UnrealBlackholio/Plugins/SpacetimeDB/Source/SpacetimeDB/Public/FStdbIdentity.h:35-38 | the identity has the 32 bytes as its ToBytesBE |
| Identities.FromHexString | UnrealBlackholio/Plugins/SpacetimeDB/Source/SpacetimeDB/Public/FStdbIdentity.h:40-44 | the result is the big-endian parse of the bytes the hex text denotes |
| Identities.CompareTo | UnrealBlackholio/Plugins/SpacetimeDB/Source/SpacetimeDB/Public/FStdbIdentity.h:51-54 | the result is -1, 0 or 1 exactly as the 256-bit values are below, equal or above |
| Identities.OrderIsNumeric | UnrealBlackholio/Plugins/SpacetimeDB/Source/SpacetimeDB/Public/FStdbIdentity.h:66-74 | operator< is the order of the 256-bit values and operator> its converse |
| Identities.HexRoundTrip | UnrealBlackholio/Plugins/SpacetimeDB/Source/SpacetimeDB/Public/FStdbIdentity.h:40-49 | every identity, zero included, survives ToString followed by FromHexString |
| Identities.BytesRoundTrip | UnrealBlackholio/Plugins/SpacetimeDB/Source/SpacetimeDB/Public/FStdbIdentity.h:30-38 | every identity survives its big-endian and its little-endian layout |
| Identities.LittleEndianIsReversedBigEndian | UnrealBlackholio/Plugins/SpacetimeDB/Source/SpacetimeDB/Public/FStdbIdentity.h:30-38 | reading 32 reversed bytes little-endian gives what reading them big-endian gives |
| Timestamps.TruncDiv | UnrealBlackholio/Plugins/SpacetimeDB/Source/SpacetimeDB/Private/FTimestamp.cpp:85 | C++ division: the quotient is rounded toward zero for negative dividends too |
| Timestamps.ComparisonsAgree | UnrealBlackholio/Plugins/SpacetimeDB/Source/SpacetimeDB/Private/FTimestamp.cpp:28-56 | operator>, <= and >= are the converse and non-strict forms of operator<, and == compares the microsecond counts |
| Timestamps.ToDateTime | UnrealBlackholio/Plugins/SpacetimeDB/Source/SpacetimeDB/Private/FTimestamp.cpp:58-71 | the ticks since the Unix epoch are ten times the microseconds |
| Timestamps.FromDateTime | UnrealBlackholio/Plugins/SpacetimeDB/Source/SpacetimeDB/Private/FTimestamp.cpp:73-88 | the microseconds are the ticks since the epoch divided by ten, the leftover dropped toward the epoch |
| Timestamps.DateTimeRoundTrip | UnrealBlackholio/Plugins/SpacetimeDB/Source/SpacetimeDB/Private/FTimestamp.cpp:58-88 | every timestamp whose ticks fit in 64 bits survives ToDateTime followed by FromDateTime |
| Timestamps.DateTimeBackAndForth | UnrealBlackholio/Plugins/SpacetimeDB/Source/SpacetimeDB/Private/FTimestamp.cpp:58-88 | a date-time survives FromDateTime followed by ToDateTime exactly when it is a whole number of microseconds from the epoch |
| Timestamps.ToDateTimeMonotonic | UnrealBlackholio/Plugins/SpacetimeDB/Source/SpacetimeDB/Private/FTimestamp.cpp:38-71 | ToDateTime keeps the order of timestamps, both ways |
| Timestamps.FromDateTimeMonotonic | UnrealBlackholio/Plugins/SpacetimeDB/Source/SpacetimeDB/Private/FTimestamp.cpp:73-88 | FromDateTime never reverses the order of date-times |
| TimeDurations.Add | UnrealBlackholio/Plugins/SpacetimeDB/Source/SpacetimeDB/Private/FTimeDuration.cpp:30-33 | subtracting the second operand from the sum gives the first |
| TimeDurations.Sub | UnrealBlackholio/Plugins/SpacetimeDB/Source/SpacetimeDB/Private/FTimeDuration.cpp:35-38 | adding the second operand to the difference gives the first |
| TimeDurations.SubUndoesAdd | UnrealBlackholio/Plugins/SpacetimeDB/Source/SpacetimeDB/Private/FTimeDuration.cpp:30-38 | operator- undoes operator+ |
| TimeDurations.AddUndoesSub | UnrealBlackholio/Plugins/SpacetimeDB/Source/SpacetimeDB/Private/FTimeDuration.cpp:30-38 | operator+ undoes operator- |
| TimeDurations.AddCommutes | UnrealBlackholio/Plugins/SpacetimeDB/Source/SpacetimeDB/Private/FTimeDuration.cpp:30-33 | operator+ is commutative |
| TimeDurations.ZeroIsNeutral | UnrealBlackholio/Plugins/SpacetimeDB/Source/SpacetimeDB/Private/FTimeDuration.cpp:30-38 | the zero duration is neutral for + and -, and a duration minus itself is zero |
| Codec.AtConcat | UnrealBlackholio/Plugins/SpacetimeDB/Source/SpacetimeDB/Private/FBinaryReader.cpp:39-44 | two pieces are stored back to back exactly when their concatenation is stored there |
| Codec.DecodeBytes | UnrealBlackholio/Plugins/SpacetimeDB/Source/SpacetimeDB/Private/FBinaryReader.cpp:39-44 | ReadBytes succeeds exactly when count bytes remain; it returns those bytes and moves past them |
| Codec.DecodeByte | UnrealBlackholio/Plugins/SpacetimeDB/Source/SpacetimeDB/Private/FBinaryReader.cpp:50-54 | ReadByte succeeds exactly when a byte remains; it returns that byte and advances by one |
| Codec.DecodeBool | UnrealBlackholio/Plugins/SpacetimeDB/Source/SpacetimeDB/Private/FBinaryReader.cpp:46-48 | ReadBool succeeds exactly when a byte remains; the result is true exactly when the byte is not zero |
| Codec.DecodeSByte | UnrealBlackholio/Plugins/SpacetimeDB/Source/SpacetimeDB/Private/FBinaryReader.cpp:66-69 | ReadSByte succeeds exactly when a byte remains; the result has that byte's bits |
| Codec.EncodeBool | UnrealBlackholio/Plugins/SpacetimeDB/Source/SpacetimeDB/Private/FBinaryWriter.cpp:69-72 | WriteBool writes one byte, 1 for true and 0 for false |
| Codec.EncodeSByte | UnrealBlackholio/Plugins/SpacetimeDB/Source/SpacetimeDB/Private/FBinaryWriter.cpp:89-92 | WriteSByte writes one byte whose signed reading is the value |
| Codec.ByteRoundTrip | UnrealBlackholio/Plugins/SpacetimeDB/Source/SpacetimeDB/Private/FBinaryReader.cpp:50-54 | a byte written by WriteByte is read back by ReadByte, which stops after it |
| Codec.BoolRoundTrip | UnrealBlackholio/Plugins/SpacetimeDB/Source/SpacetimeDB/Private/FBinaryReader.cpp:46-48 | a bool written by WriteBool is read back by ReadBool |
| Codec.SByteRoundTrip | UnrealBlackholio/Plugins/SpacetimeDB/Source/SpacetimeDB/Private/FBinaryReader.cpp:66-69 | a value written by WriteSByte is read back by ReadSByte |
| Codec.DecodeSigned | UnrealBlackholio/Plugins/SpacetimeDB/Source/SpacetimeDB/Private/FBinaryReader.cpp:81-87 | a signed read of n bytes succeeds exactly when n bytes remain, and its result lies in the n-byte signed range |
| Codec.SignedReadIsLE | UnrealBlackholio/Plugins/SpacetimeDB/Source/SpacetimeDB/Private/FBinaryReader.cpp:81-87 | the bytes consumed are the little-endian two's complement layout of the number read |
| Codec.SignedRoundTrip | UnrealBlackholio/Plugins/SpacetimeDB/Source/SpacetimeDB/Private/FBinaryReader.cpp:81-87 | an n-byte signed value written little-endian is read back and the reader stops after its n bytes |
| Codec.DecodeInt16 | UnrealBlackholio/Plugins/SpacetimeDB/Source/SpacetimeDB/Private/FBinaryReader.cpp:81-87 | ReadInt16 succeeds exactly when two bytes remain and advances by two |
| Codec.DecodeInt32 | UnrealBlackholio/Plugins/SpacetimeDB/Source/SpacetimeDB/Private/FBinaryReader.cpp:114-120 | ReadInt32 succeeds exactly when four bytes remain and advances by four |
| Codec.DecodeInt64 | UnrealBlackholio/Plugins/SpacetimeDB/Source/SpacetimeDB/Private/FBinaryReader.cpp:147-153 | ReadInt64 succeeds exactly when eight bytes remain and advances by eight |
| Codec.DecodeUInt16 | UnrealBlackholio/Plugins/SpacetimeDB/Source/SpacetimeDB/Private/FBinaryReader.cpp:99-102 | ReadUInt16 succeeds exactly when two bytes remain and advances by two |
| Codec.DecodeUInt32 | UnrealBlackholio/Plugins/SpacetimeDB/Source/SpacetimeDB/Private/FBinaryReader.cpp:132-135 | ReadUInt32 succeeds exactly when four bytes remain and advances by four |
| Codec.DecodeUInt64 | UnrealBlackholio/Plugins/SpacetimeDB/Source/SpacetimeDB/Private/FBinaryReader.cpp:165-168 | ReadUInt64 succeeds exactly when eight bytes remain and advances by eight |
| Codec.UnsignedReadsAreLE | UnrealBlackholio/Plugins/SpacetimeDB/Source/SpacetimeDB/Private/FBinaryReader.cpp:99-168 | the unsigned reads return the little-endian value of the bytes consumed |
| Codec.Int64ReadIsEncoding | UnrealBlackholio/Plugins/SpacetimeDB/Source/SpacetimeDB/Private/FBinaryReader.cpp:147-153 | the eight bytes ReadInt64 consumed are exactly what WriteInt64 writes for the number read |
| Codec.UnsignedWritesAreLE | UnrealBlackholio/Plugins/SpacetimeDB/Source/SpacetimeDB/Private/FBinaryWriter.cpp:119-179 | WriteUInt16, WriteUInt32 and WriteUInt64 write the value's own little-endian bytes |
| Codec.Int16RoundTrip | UnrealBlackholio/Plugins/SpacetimeDB/Source/SpacetimeDB/Private/FBinaryWriter.cpp:103-108 | a value written by WriteInt16 is read back by ReadInt16, which stops after its two bytes |
| Codec.Int32RoundTrip | UnrealBlackholio/Plugins/SpacetimeDB/Source/SpacetimeDB/Private/FBinaryWriter.cpp:133 | a value written by WriteInt32 is read back by ReadInt32 |
| Codec.Int64RoundTrip | UnrealBlackholio/Plugins/SpacetimeDB/Source/SpacetimeDB/Private/FBinaryWriter.cpp:163 | a value written by WriteInt64 is read back by ReadInt64 |
| Codec.UInt16RoundTrip | UnrealBlackholio/Plugins/SpacetimeDB/Source/SpacetimeDB/Private/FBinaryWriter.cpp:119-122 | a value written by WriteUInt16 is read back by ReadUInt16 |
| Codec.UInt32RoundTrip | UnrealBlackholio/Plugins/SpacetimeDB/Source/SpacetimeDB/Private/FBinaryWriter.cpp:149 | a value written by WriteUInt32 is read back by ReadUInt32 |
| Codec.UInt64RoundTrip | UnrealBlackholio/Plugins/SpacetimeDB/Source/SpacetimeDB/Private/FBinaryWriter.cpp:179 | a value written by WriteUInt64 is read back by ReadUInt64 |
| Codec.CountIsInt32 | UnrealBlackholio/Plugins/SpacetimeDB/Source/SpacetimeDB/Public/FBinaryWriter.h:86-94 | a length prefix below 2^31 is written exactly as WriteInt32 writes the length |
| Codec.CountRoundTrip | UnrealBlackholio/Plugins/SpacetimeDB/Source/SpacetimeDB/Public/FBinaryReader.h:83-101 | a length prefix below 2^31 is read back by ReadInt32 as the length |
| Codec.Utf8Char | UnrealBlackholio/Plugins/SpacetimeDB/Source/SpacetimeDB/Private/FBinaryWriter.cpp:235-236 | a character takes one to four UTF-8 bytes, one exactly when it is below U+0080 (section 3 of RFC 3629) |
| Codec.Utf8OfAscii | UnrealBlackholio/Plugins/SpacetimeDB/Source/SpacetimeDB/Private/FBinaryWriter.cpp:235-236 | ASCII text encodes as one byte per character, each the character's code |
| Codec.Widen | UnrealBlackholio/Plugins/SpacetimeDB/Source/SpacetimeDB/Private/FBinaryReader.cpp:234-237 | ReadString turns each byte into the character with that code, a zero byte giving nothing, so the text has at most as many characters as bytes |
| Codec.WidenDropsOnlyNul | UnrealBlackholio/Plugins/SpacetimeDB/Source/SpacetimeDB/Private/FBinaryReader.cpp:234-237 | the text read never holds '\0', and when no byte is zero it has one character per byte, each the byte's code |
| Codec.UpToNul | UnrealBlackholio/Plugins/SpacetimeDB/Source/SpacetimeDB/Private/FBinaryWriter.cpp:236 | the characters FTCHARToUTF8 sees stop before the first '\0', and a string without '\0' is kept whole |
| Codec.UpToNulIsPrefix | UnrealBlackholio/Plugins/SpacetimeDB/Source/SpacetimeDB/Private/FBinaryWriter.cpp:236 | what is written is a prefix of the string without '\0', followed in the string by a '\0' whenever it is shorter |
| Codec.UpToNulIsAscii | UnrealBlackholio/Plugins/SpacetimeDB/Source/SpacetimeDB/Private/FBinaryWriter.cpp:236 | the text before the first '\0' of an ASCII string is ASCII |
| Codec.WidenUndoesUtf8 | UnrealBlackholio/Plugins/SpacetimeDB/Source/SpacetimeDB/Private/FBinaryReader.cpp:234-237 | widening the UTF-8 bytes of ASCII text without '\0' gives the text back |
| Codec.WrittenAscii | UnrealBlackholio/Plugins/SpacetimeDB/Source/SpacetimeDB/Private/FBinaryWriter.cpp:233-247 | for an ASCII string WriteString writes at most one byte per character, and widening them gives the text before the first '\0' |
| Codec.DecodeStringOfBytes | UnrealBlackholio/Plugins/SpacetimeDB/Source/SpacetimeDB/Private/FBinaryReader.cpp:216-240 | a count n followed by n bytes reads as those bytes widened, and the reader stops after them |
| Codec.StringRoundTripUpToNul | UnrealBlackholio/Plugins/SpacetimeDB/Source/SpacetimeDB/Private/FBinaryReader.cpp:216-240 | ReadString reads back from any ASCII string WriteString wrote the text before its first '\0', and stops after the bytes written |
| Codec.WriteStringStopsAtNul | UnrealBlackholio/Plugins/SpacetimeDB/Source/SpacetimeDB/Private/FBinaryWriter.cpp:233-247 | "a\0b" is written as the count 1 and the single byte 0x61 |
| Codec.ReadStringSkipsNul | UnrealBlackholio/Plugins/SpacetimeDB/Source/SpacetimeDB/Private/FBinaryReader.cpp:234-237 | the count 3 followed by 0x61 0x00 0x62 reads as "ab", and the reader stops after the three bytes |
| Codec.EncodeString | UnrealBlackholio/Plugins/SpacetimeDB/Source/SpacetimeDB/Private/FBinaryWriter.cpp:233-247 | WriteString writes a four-byte count and then the UTF-8 bytes of the text before the first '\0' |
| Codec.StringReadShape | UnrealBlackholio/Plugins/SpacetimeDB/Source/SpacetimeDB/Private/FBinaryReader.cpp:216-240 | a negative length gives the empty string after the four count bytes; a length n needs n bytes and gives them widened, a zero byte dropped |
| Codec.StringRoundTrip | UnrealBlackholio/Plugins/SpacetimeDB/Source/SpacetimeDB/Private/FBinaryReader.cpp:216-240 | an ASCII string without '\0' and shorter than 2^31 written by WriteString is read back by ReadString, which stops after it |
| Codec.StringRoundTripFailsBeyondAscii | UnrealBlackholio/Plugins/SpacetimeDB/Source/SpacetimeDB/Private/FBinaryReader.cpp:234-237 | "é" is written as C3 A9 and read back as the two characters U+00C3 U+00A9 |
| Codec.EncodeOptional | UnrealBlackholio/Plugins/SpacetimeDB/Source/SpacetimeDB/Private/FBinaryWriter.cpp:80-87 | the optional writes start with the flag 1 when a value follows and 0 when none does |
| Codec.OptionalReadShape | UnrealBlackholio/Plugins/SpacetimeDB/Source/SpacetimeDB/Private/FBinaryReader.cpp:56-64 | a zero flag gives no value after one byte; any other flag gives the payload read one byte further on |
| Codec.OptionalRoundTrip | UnrealBlackholio/Plugins/SpacetimeDB/Source/SpacetimeDB/Private/FBinaryReader.cpp:56-64 | an optional value whose payload survives the round trip survives it with its flag |
| Codec.OptionalDecodes | UnrealBlackholio/Plugins/SpacetimeDB/Source/SpacetimeDB/Private/FBinaryReader.cpp:242-250 | the optional reader reads back what the optional writer writes, wherever it is stored |
| Codec.EncodeArray | UnrealBlackholio/Plugins/SpacetimeDB/Source/SpacetimeDB/Public/FBinaryWriter.h:86-94 | WriteArray starts with the four-byte element count |
| Codec.EmptyArrayIsFourZeros | UnrealBlackholio/Plugins/SpacetimeDB/Source/SpacetimeDB/Public/FBinaryWriter.h:86-94 | an empty array is written as four zero bytes |
| Codec.ElemsAdvance | UnrealBlackholio/Plugins/SpacetimeDB/Source/SpacetimeDB/Public/FBinaryReader.h:96-99 | the element loop moves the position forwards only and never past the end |
| Codec.ElemsSplit | UnrealBlackholio/Plugins/SpacetimeDB/Source/SpacetimeDB/Public/FBinaryReader.h:96-99 | reading n + m elements is reading n and then m more from where the first n stopped |
| Codec.ArrayReadShape | UnrealBlackholio/Plugins/SpacetimeDB/Source/SpacetimeDB/Public/FBinaryReader.h:83-101 | a negative count gives the empty array after the four count bytes; a count n gives exactly n elements |
| Codec.ElemsRoundTrip | UnrealBlackholio/Plugins/SpacetimeDB/Source/SpacetimeDB/Public/FBinaryReader.h:96-99 | elements that each survive the round trip are read back in order by the loop |
| Codec.ArrayRoundTrip | UnrealBlackholio/Plugins/SpacetimeDB/Source/SpacetimeDB/Public/FBinaryReader.h:83-101 | an array shorter than 2^31 whose elements each survive the round trip survives WriteArray and ReadArray |
| Codec.EncodeElemsAppend | UnrealBlackholio/Plugins/SpacetimeDB/Source/SpacetimeDB/Public/FBinaryWriter.h:89-93 | writing the elements of a + b writes those of a, then those of b |
| Codec.ElemAt | UnrealBlackholio/Plugins/SpacetimeDB/Source/SpacetimeDB/Public/FBinaryWriter.h:89-93 | element i is stored from its start up to the start of element i + 1 |
| Codec.ArrayRoundTripAt | UnrealBlackholio/Plugins/SpacetimeDB/Source/SpacetimeDB/Public/FBinaryReader.h:83-101 | the array comes back when each element, read where it was written, comes back and stops where the next was written |
| Codec.ArrayDecodes | UnrealBlackholio/Plugins/SpacetimeDB/Source/SpacetimeDB/Public/FBinaryReader.h:83-101 | ReadArray reads back what WriteArray writes, wherever it is stored |
| Codec.ByteElemsAreSlice | UnrealBlackholio/Plugins/SpacetimeDB/Source/SpacetimeDB/Private/FBinaryReader.cpp:371-389 | reading n bytes one ReadByte at a time is taking the next n bytes |
| Codec.ByteElemsAreBytes | UnrealBlackholio/Plugins/SpacetimeDB/Source/SpacetimeDB/Private/FBinaryWriter.cpp:344-353 | a byte array's elements are written as the bytes themselves |
| Codec.ByteArrayRoundTrip | UnrealBlackholio/Plugins/SpacetimeDB/Source/SpacetimeDB/Private/FBinaryReader.cpp:371-389 | a byte array is written as its count and the bytes, and read back whole |
| Codec.ByteArrayDecodes | UnrealBlackholio/Plugins/SpacetimeDB/Source/SpacetimeDB/Private/FBinaryWriter.cpp:344-353 | the byte-array reader reads back what the byte-array writer writes |
| Codec.StringArrayRoundTrip | UnrealBlackholio/Plugins/SpacetimeDB/Source/SpacetimeDB/Private/FBinaryReader.cpp:365-369 | an array of ASCII strings without '\0' survives WriteStringArray and ReadStringArray |
| Codec.StringDecodes | UnrealBlackholio/Plugins/SpacetimeDB/Source/SpacetimeDB/Private/FBinaryWriter.cpp:233-247 | ReadString reads back what WriteString writes for ASCII strings without '\0', wherever it is stored |
| Codec.UInt32Decodes | UnrealBlackholio/Plugins/SpacetimeDB/Source/SpacetimeDB/Private/FBinaryReader.cpp:132-135 | ReadUInt32 reads back what WriteUInt32 writes, wherever it is stored |
| Codec.UInt64Decodes | UnrealBlackholio/Plugins/SpacetimeDB/Source/SpacetimeDB/Private/FBinaryReader.cpp:165-168 | ReadUInt64 reads back what WriteUInt64 writes, wherever it is stored |
| Codec.PrimitivesAreSound | UnrealBlackholio/Plugins/SpacetimeDB/Source/SpacetimeDB/Private/FBinaryReader.cpp:46-168 | the byte, bool and integer reads never move backwards or past the end |
| Codec.StringIsSound | UnrealBlackholio/Plugins/SpacetimeDB/Source/SpacetimeDB/Private/FBinaryReader.cpp:216-240 | ReadString never moves backwards or past the end |
| Codec.OptionalIsSound | UnrealBlackholio/Plugins/SpacetimeDB/Source/SpacetimeDB/Private/FBinaryReader.cpp:56-64 | an optional read over a sound payload reader is sound |
| Codec.ArrayAdvances | UnrealBlackholio/Plugins/SpacetimeDB/Source/SpacetimeDB/Public/FBinaryReader.h:83-101 | ReadArray over a sound element reader moves forwards only and stays inside the data |
| Codec.ArrayIsSound | UnrealBlackholio/Plugins/SpacetimeDB/Source/SpacetimeDB/Public/FBinaryReader.h:83-101 | ReadArray over a sound element reader is sound |
| WideCodec.DecodeU128 | UnrealBlackholio/Plugins/SpacetimeDB/Source/SpacetimeDB/Private/FBinaryReader.cpp:280-289 | ReadU128 succeeds exactly when sixteen bytes remain, and advances by sixteen |
| WideCodec.DecodeI128 | UnrealBlackholio/Plugins/SpacetimeDB/Source/SpacetimeDB/Private/FBinaryReader.cpp:259-268 | ReadI128 succeeds exactly when sixteen bytes remain, and advances by sixteen |
| WideCodec.DecodeU256 | UnrealBlackholio/Plugins/SpacetimeDB/Source/SpacetimeDB/Private/FBinaryReader.cpp:321-329 | ReadU256 succeeds exactly when 32 bytes remain, and advances by 32 |
| WideCodec.DecodeI256 | UnrealBlackholio/Plugins/SpacetimeDB/Source/SpacetimeDB/Private/FBinaryReader.cpp:301-309 | ReadI256 succeeds exactly when 32 bytes remain, and advances by 32 |
| WideCodec.DecodeTimestamp | UnrealBlackholio/Plugins/SpacetimeDB/Source/SpacetimeDB/Private/FBinaryReader.cpp:347-351 | ReadTimestamp succeeds exactly when eight bytes remain |
| WideCodec.DecodeTimeDuration | UnrealBlackholio/Plugins/SpacetimeDB/Source/SpacetimeDB/Private/FBinaryReader.cpp:341-345 | ReadTimeDuration succeeds exactly when eight bytes remain |
| WideCodec.DecodeConnectionId | UnrealBlackholio/Plugins/SpacetimeDB/Source/SpacetimeDB/Private/FBinaryReader.cpp:353-357 | ReadConnectionId succeeds exactly when sixteen bytes remain; a zero id is accepted |
| WideCodec.DecodeIdentity | UnrealBlackholio/Plugins/SpacetimeDB/Source/SpacetimeDB/Private/FBinaryReader.cpp:359-363 | ReadIdentity succeeds exactly when 32 bytes remain |
| WideCodec.U128RoundTrip | UnrealBlackholio/Plugins/SpacetimeDB/Source/SpacetimeDB/Private/FBinaryWriter.cpp:273-277 | a value written by WriteU128 is read back by ReadU128 |
| WideCodec.I128RoundTrip | UnrealBlackholio/Plugins/SpacetimeDB/Source/SpacetimeDB/Private/FBinaryWriter.cpp:258-262 | a value written by WriteI128 is read back by ReadI128 |
| WideCodec.U256RoundTrip | UnrealBlackholio/Plugins/SpacetimeDB/Source/SpacetimeDB/Private/FBinaryWriter.cpp:303-307 | a value written by WriteU256 is read back by ReadU256 |
| WideCodec.I256RoundTrip | UnrealBlackholio/Plugins/SpacetimeDB/Source/SpacetimeDB/Private/FBinaryWriter.cpp:288-292 | a value written by WriteI256 is read back by ReadI256 |
| WideCodec.TimestampRoundTrip | UnrealBlackholio/Plugins/SpacetimeDB/Source/SpacetimeDB/Private/FBinaryWriter.cpp:324-327 | a timestamp written by WriteTimestamp is read back by ReadTimestamp |
| WideCodec.TimeDurationRoundTrip | UnrealBlackholio/Plugins/SpacetimeDB/Source/SpacetimeDB/Private/FBinaryWriter.cpp:319-322 | a duration written by WriteTimeDuration is read back by ReadTimeDuration |
| WideCodec.ConnectionIdRoundTrip | UnrealBlackholio/Plugins/SpacetimeDB/Source/SpacetimeDB/Private/FBinaryWriter.cpp:329-332 | every connection id, zero included, survives WriteConnectionId and ReadConnectionId |
| WideCodec.IdentityRoundTrip | UnrealBlackholio/Plugins/SpacetimeDB/Source/SpacetimeDB/Private/FBinaryWriter.cpp:334-337 | an identity written by WriteIdentity is read back by ReadIdentity |
| WideCodec.U128Decodes | UnrealBlackholio/Plugins/SpacetimeDB/Source/SpacetimeDB/Private/FBinaryReader.cpp:280-289 | ReadU128 reads back what WriteU128 writes, wherever it is stored |
| WideCodec.I128Decodes | UnrealBlackholio/Plugins/SpacetimeDB/Source/SpacetimeDB/Private/FBinaryReader.cpp:259-268 | ReadI128 reads back what WriteI128 writes, wherever it is stored |
| WideCodec.U256Decodes | UnrealBlackholio/Plugins/SpacetimeDB/Source/SpacetimeDB/Private/FBinaryReader.cpp:321-329 | ReadU256 reads back what WriteU256 writes, wherever it is stored |
| WideCodec.I256Decodes | UnrealBlackholio/Plugins/SpacetimeDB/Source/SpacetimeDB/Private/FBinaryReader.cpp:301-309 | ReadI256 reads back what WriteI256 writes, wherever it is stored |
| WideCodec.TimestampDecodes | UnrealBlackholio/Plugins/SpacetimeDB/Source/SpacetimeDB/Private/FBinaryReader.cpp:347-351 | ReadTimestamp reads back what WriteTimestamp writes, wherever it is stored |
| WideCodec.TimeDurationDecodes | UnrealBlackholio/Plugins/SpacetimeDB/Source/SpacetimeDB/Private/FBinaryReader.cpp:341-345 | ReadTimeDuration reads back what WriteTimeDuration writes, wherever it is stored |
| WideCodec.ConnectionIdDecodes | UnrealBlackholio/Plugins/SpacetimeDB/Source/SpacetimeDB/Private/FBinaryReader.cpp:353-357 | ReadConnectionId reads back what WriteConnectionId writes, wherever it is stored |
| WideCodec.IdentityDecodes | UnrealBlackholio/Plugins/SpacetimeDB/Source/SpacetimeDB/Private/FBinaryReader.cpp:359-363 | ReadIdentity reads back what WriteIdentity writes, wherever it is stored |
| WideCodec.U128WireSwapsWords | UnrealBlackholio/Plugins/SpacetimeDB/Source/SpacetimeDB/Private/FBinaryWriter.cpp:273-277 | the wire layout of a 128-bit value is its little-endian layout with the two 64-bit words swapped |
| WideCodec.U128WireIsNeitherByteOrder | UnrealBlackholio/Plugins/SpacetimeDB/Source/SpacetimeDB/Private/FBinaryWriter.cpp:273-277 | so the value 1 goes out with its set byte at offset 8, matching neither ToBytesLE nor ToBytesBE |
| WideCodec.WideAreSound | UnrealBlackholio/Plugins/SpacetimeDB/Source/SpacetimeDB/Private/FBinaryReader.cpp:259-363 | the wide, time, connection-id and identity reads never move backwards or past the end |
| BinaryReaders.BinaryReader.constructor | UnrealBlackholio/Plugins/SpacetimeDB/Source/SpacetimeDB/Private/FBinaryReader.cpp:8-22 | a reader starts at position 0 of the given bytes |
| BinaryReaders.BinaryReader.Copy | UnrealBlackholio/Plugins/SpacetimeDB/Source/SpacetimeDB/Private/FBinaryReader.cpp:8-22 | a reader passed by value is a copy with the same bytes and position |
| BinaryReaders.BinaryReader.SetPosition | UnrealBlackholio/Plugins/SpacetimeDB/Source/SpacetimeDB/Private/FBinaryReader.cpp:33-37 | any position from the start to the end of the data can be set |
| BinaryReaders.BinaryReader.ReadBytes | UnrealBlackholio/Plugins/SpacetimeDB/Source/SpacetimeDB/Private/FBinaryReader.cpp:39-44 | returns what the ReadBytes decoder returns and leaves the position where it stops |
| BinaryReaders.BinaryReader.ReadByte | UnrealBlackholio/Plugins/SpacetimeDB/Source/SpacetimeDB/Private/FBinaryReader.cpp:50-54 | returns the value the matching decoder reads at the old position and moves to where it stops |
| BinaryReaders.BinaryReader.ReadBool | UnrealBlackholio/Plugins/SpacetimeDB/Source/SpacetimeDB/Private/FBinaryReader.cpp:46-48 | returns the value the matching decoder reads at the old position and moves to where it stops |
| BinaryReaders.BinaryReader.ReadSByte | UnrealBlackholio/Plugins/SpacetimeDB/Source/SpacetimeDB/Private/FBinaryReader.cpp:66-69 | returns the value the matching decoder reads at the old position and moves to where it stops |
| BinaryReaders.BinaryReader.ReadInt16 | UnrealBlackholio/Plugins/SpacetimeDB/Source/SpacetimeDB/Private/FBinaryReader.cpp:81-87 | returns the value the matching decoder reads at the old position and moves to where it stops |
| BinaryReaders.BinaryReader.ReadInt32 | UnrealBlackholio/Plugins/SpacetimeDB/Source/SpacetimeDB/Private/FBinaryReader.cpp:114-120 | returns the value the matching decoder reads at the old position and moves to where it stops |
| BinaryReaders.BinaryReader.ReadInt64 | UnrealBlackholio/Plugins/SpacetimeDB/Source/SpacetimeDB/Private/FBinaryReader.cpp:147-153 | returns the value the matching decoder reads at the old position and moves to where it stops |
| BinaryReaders.BinaryReader.ReadUInt16 | UnrealBlackholio/Plugins/SpacetimeDB/Source/SpacetimeDB/Private/FBinaryReader.cpp:99-102 | returns the value the matching decoder reads at the old position and moves to where it stops |
| BinaryReaders.BinaryReader.ReadUInt32 | UnrealBlackholio/Plugins/SpacetimeDB/Source/SpacetimeDB/Private/FBinaryReader.cpp:132-135 | returns the value the matching decoder reads at the old position and moves to where it stops |
| BinaryReaders.BinaryReader.ReadUInt64 | UnrealBlackholio/Plugins/SpacetimeDB/Source/SpacetimeDB/Private/FBinaryReader.cpp:165-168 | returns the value the matching decoder reads at the old position and moves to where it stops |
| BinaryReaders.BinaryReader.ReadSigned | UnrealBlackholio/Plugins/SpacetimeDB/Source/SpacetimeDB/Private/FBinaryReader.cpp:81-87 | returns the n-byte little-endian signed value at the position and moves past it |
| BinaryReaders.BinaryReader.ReadString | UnrealBlackholio/Plugins/SpacetimeDB/Source/SpacetimeDB/Private/FBinaryReader.cpp:216-240 | returns the string the decoder reads, one character per non-zero byte and the empty one for a negative length, and moves past it |
| BinaryReaders.BinaryReader.ReadWith | UnrealBlackholio/Plugins/SpacetimeDB/Source/SpacetimeDB/Public/FBinaryReader.h:96-99 | an element reader passed in returns what its decoder reads and leaves the position where it stops |
| BinaryReaders.BinaryReader.ReadOptional | UnrealBlackholio/Plugins/SpacetimeDB/Source/SpacetimeDB/Private/FBinaryReader.cpp:56-64 | ReadOptionalByte, ReadOptionalInt32, ReadOptionalString and the rest: the flag, then the payload only when the flag is not zero |
| BinaryReaders.BinaryReader.ReadU128 | UnrealBlackholio/Plugins/SpacetimeDB/Source/SpacetimeDB/Private/FBinaryReader.cpp:280-289 | returns the value the wide decoder reads at the old position and moves past it |
| BinaryReaders.BinaryReader.ReadI128 | UnrealBlackholio/Plugins/SpacetimeDB/Source/SpacetimeDB/Private/FBinaryReader.cpp:259-268 | returns the value the wide decoder reads at the old position and moves past it |
| BinaryReaders.BinaryReader.ReadU256 | UnrealBlackholio/Plugins/SpacetimeDB/Source/SpacetimeDB/Private/FBinaryReader.cpp:321-329 | returns the value the wide decoder reads at the old position and moves past it |
| BinaryReaders.BinaryReader.ReadI256 | UnrealBlackholio/Plugins/SpacetimeDB/Source/SpacetimeDB/Private/FBinaryReader.cpp:301-309 | returns the value the wide decoder reads at the old position and moves past it |
| BinaryReaders.BinaryReader.ReadTimeDuration | UnrealBlackholio/Plugins/SpacetimeDB/Source/SpacetimeDB/Private/FBinaryReader.cpp:341-345 | returns the value the wide decoder reads at the old position and moves past it |
| BinaryReaders.BinaryReader.ReadTimestamp | UnrealBlackholio/Plugins/SpacetimeDB/Source/SpacetimeDB/Private/FBinaryReader.cpp:347-351 | returns the value the wide decoder reads at the old position and moves past it |
| BinaryReaders.BinaryReader.ReadConnectionId | UnrealBlackholio/Plugins/SpacetimeDB/Source/SpacetimeDB/Private/FBinaryReader.cpp:353-357 | returns the value the wide decoder reads at the old position and moves past it |
| BinaryReaders.BinaryReader.ReadIdentity | UnrealBlackholio/Plugins/SpacetimeDB/Source/SpacetimeDB/Private/FBinaryReader.cpp:359-363 | returns the value the wide decoder reads at the old position and moves past it |
| BinaryReaders.BinaryReader.ReadArray | UnrealBlackholio/Plugins/SpacetimeDB/Source/SpacetimeDB/Public/FBinaryReader.h:83-101 | the loop reads as many elements as the count says, none for a negative count, and returns what the array decoder returns |
| BinaryReaders.BinaryReader.ReadStringArray | UnrealBlackholio/Plugins/SpacetimeDB/Source/SpacetimeDB/Private/FBinaryReader.cpp:365-369 | returns the strings the array decoder reads with ReadString as element reader, zero bytes dropped from each |
| BinaryWriters.ByteArray.constructor | UnrealBlackholio/Plugins/SpacetimeDB/Source/SpacetimeDB/Private/FBinaryWriter.cpp:15-20 | the array shared between a writer and its caller holds the given bytes |
| BinaryWriters.Grow | UnrealBlackholio/Plugins/SpacetimeDB/Source/SpacetimeDB/Private/FBinaryWriter.cpp:26-42 | growing an array to n keeps its bytes and fills the new places with zeros |
| BinaryWriters.WriteAt | UnrealBlackholio/Plugins/SpacetimeDB/Source/SpacetimeDB/Private/FBinaryWriter.cpp:59-67 | after a write the array is long enough to hold the written bytes, and an empty write leaves it as it was |
| BinaryWriters.WriteAtElems | UnrealBlackholio/Plugins/SpacetimeDB/Source/SpacetimeDB/Private/FBinaryWriter.cpp:59-67 | each byte after a write comes from the written bytes inside their range, from the old array elsewhere, and is zero in any gap |
| BinaryWriters.WriteAtHolds | UnrealBlackholio/Plugins/SpacetimeDB/Source/SpacetimeDB/Private/FBinaryWriter.cpp:59-67 | what was written can be read back where it was written |
| BinaryWriters.WriteAtEnd | UnrealBlackholio/Plugins/SpacetimeDB/Source/SpacetimeDB/Private/FBinaryWriter.cpp:59-67 | writing at the end of the array appends |
| BinaryWriters.WriteAtConcat | UnrealBlackholio/Plugins/SpacetimeDB/Source/SpacetimeDB/Private/FBinaryWriter.cpp:59-67 | two writes, the second starting where the first stopped, are one write of both |
| BinaryWriters.ElemsEncodeSnoc | UnrealBlackholio/Plugins/SpacetimeDB/Source/SpacetimeDB/Public/FBinaryWriter.h:89-93 | writing one more element appends its bytes |
| BinaryWriters.BinaryWriter.constructor | UnrealBlackholio/Plugins/SpacetimeDB/Source/SpacetimeDB/Private/FBinaryWriter.cpp:7-13 | a new writer owns an empty array and starts at position 0 |
| BinaryWriters.BinaryWriter.Over | UnrealBlackholio/Plugins/SpacetimeDB/Source/SpacetimeDB/Private/FBinaryWriter.cpp:15-20 | a writer over the caller's array starts at the end of its bytes |
| BinaryWriters.BinaryWriter.Copy | UnrealBlackholio/Plugins/SpacetimeDB/Source/SpacetimeDB/Private/FBinaryWriter.cpp:15-20 | a writer passed by value shares the array but has its own position |
| BinaryWriters.BinaryWriter.SetPosition | UnrealBlackholio/Plugins/SpacetimeDB/Source/SpacetimeDB/Private/FBinaryWriter.cpp:26-42 | the position becomes p and the array grows with zeros to reach it |
| BinaryWriters.BinaryWriter.Reset | UnrealBlackholio/Plugins/SpacetimeDB/Source/SpacetimeDB/Private/FBinaryWriter.cpp:44-48 | the array is emptied and the position returns to 0 |
| BinaryWriters.BinaryWriter.EnsureCapacity | UnrealBlackholio/Plugins/SpacetimeDB/Source/SpacetimeDB/Private/FBinaryWriter.cpp:50-57 | the array grows with zeros to hold the bytes about to be written |
| BinaryWriters.BinaryWriter.WriteBytes | UnrealBlackholio/Plugins/SpacetimeDB/Source/SpacetimeDB/Private/FBinaryWriter.cpp:59-67 | the first count bytes are written at the position, which moves past them; a count of zero or less writes nothing |
| BinaryWriters.BinaryWriter.Put | UnrealBlackholio/Plugins/SpacetimeDB/Source/SpacetimeDB/Private/FBinaryWriter.cpp:59-67 | bytes are written at the position, which moves past them |
| BinaryWriters.BinaryWriter.WriteByte | UnrealBlackholio/Plugins/SpacetimeDB/Source/SpacetimeDB/Private/FBinaryWriter.cpp:74-78 | the array after the call is the old one with the value's encoding written at the old position, and the position moves past it |
| BinaryWriters.BinaryWriter.WriteBool | UnrealBlackholio/Plugins/SpacetimeDB/Source/SpacetimeDB/Private/FBinaryWriter.cpp:69-72 | the array after the call is the old one with the value's encoding written at the old position, and the position moves past it |
| BinaryWriters.BinaryWriter.WriteSByte | UnrealBlackholio/Plugins/SpacetimeDB/Source/SpacetimeDB/Private/FBinaryWriter.cpp:89-92 | the array after the call is the old one with the value's encoding written at the old position, and the position moves past it |
| BinaryWriters.BinaryWriter.WriteInt16 | UnrealBlackholio/Plugins/SpacetimeDB/Source/SpacetimeDB/Private/FBinaryWriter.cpp:103-108 | the array after the call is the old one with the value's encoding written at the old position, and the position moves past it |
| BinaryWriters.BinaryWriter.WriteInt32 | UnrealBlackholio/Plugins/SpacetimeDB/Source/SpacetimeDB/Private/FBinaryWriter.cpp:133 | the array after the call is the old one with the value's encoding written at the old position, and the position moves past it |
| BinaryWriters.BinaryWriter.WriteInt64 | UnrealBlackholio/Plugins/SpacetimeDB/Source/SpacetimeDB/Private/FBinaryWriter.cpp:163 | the array after the call is the old one with the value's encoding written at the old position, and the position moves past it |
| BinaryWriters.BinaryWriter.WriteUInt16 | UnrealBlackholio/Plugins/SpacetimeDB/Source/SpacetimeDB/Private/FBinaryWriter.cpp:119-122 | the array after the call is the old one with the value's encoding written at the old position, and the position moves past it |
| BinaryWriters.BinaryWriter.WriteUInt32 | UnrealBlackholio/Plugins/SpacetimeDB/Source/SpacetimeDB/Private/FBinaryWriter.cpp:149 | the array after the call is the old one with the value's encoding written at the old position, and the position moves past it |
| BinaryWriters.BinaryWriter.WriteUInt64 | UnrealBlackholio/Plugins/SpacetimeDB/Source/SpacetimeDB/Private/FBinaryWriter.cpp:179 | the array after the call is the old one with the value's encoding written at the old position, and the position moves past it |
| BinaryWriters.BinaryWriter.WriteU128 | UnrealBlackholio/Plugins/SpacetimeDB/Source/SpacetimeDB/Private/FBinaryWriter.cpp:273-277 | the array after the call is the old one with the value's encoding written at the old position, and the position moves past it |
| BinaryWriters.BinaryWriter.WriteI128 | UnrealBlackholio/Plugins/SpacetimeDB/Source/SpacetimeDB/Private/FBinaryWriter.cpp:258-262 | the array after the call is the old one with the value's encoding written at the old position, and the position moves past it |
| BinaryWriters.BinaryWriter.WriteU256 | UnrealBlackholio/Plugins/SpacetimeDB/Source/SpacetimeDB/Private/FBinaryWriter.cpp:303-307 | the array after the call is the old one with the value's encoding written at the old position, and the position moves past it |
| BinaryWriters.BinaryWriter.WriteI256 | UnrealBlackholio/Plugins/SpacetimeDB/Source/SpacetimeDB/Private/FBinaryWriter.cpp:288-292 | the array after the call is the old one with the value's encoding written at the old position, and the position moves past it |
| BinaryWriters.BinaryWriter.WriteTimeDuration | UnrealBlackholio/Plugins/SpacetimeDB/Source/SpacetimeDB/Private/FBinaryWriter.cpp:319-322 | the array after the call is the old one with the value's encoding written at the old position, and the position moves past it |
| BinaryWriters.BinaryWriter.WriteTimestamp | UnrealBlackholio/Plugins/SpacetimeDB/Source/SpacetimeDB/Private/FBinaryWriter.cpp:324-327 | the array after the call is the old one with the value's encoding written at the old position, and the position moves past it |
| BinaryWriters.BinaryWriter.WriteConnectionId | UnrealBlackholio/Plugins/SpacetimeDB/Source/SpacetimeDB/Private/FBinaryWriter.cpp:329-332 | the array after the call is the old one with the value's encoding written at the old position, and the position moves past it |
| BinaryWriters.BinaryWriter.WriteIdentity | UnrealBlackholio/Plugins/SpacetimeDB/Source/SpacetimeDB/Private/FBinaryWriter.cpp:334-337 | the array after the call is the old one with the value's encoding written at the old position, and the position moves past it |
| BinaryWriters.BinaryWriter.WriteString | UnrealBlackholio/Plugins/SpacetimeDB/Source/SpacetimeDB/Private/FBinaryWriter.cpp:233-247 | the count and UTF-8 bytes of the text before the string's first '\0' are written at the position, which moves past them |
| BinaryWriters.BinaryWriter.WriteWith | UnrealBlackholio/Plugins/SpacetimeDB/Source/SpacetimeDB/Public/FBinaryWriter.h:89-93 | an element writer passed in writes its encoding at the position |
| BinaryWriters.BinaryWriter.WriteOptional | UnrealBlackholio/Plugins/SpacetimeDB/Source/SpacetimeDB/Private/FBinaryWriter.cpp:80-87 | WriteOptionalByte, WriteOptionalString and the rest: the flag and, when there is one, the payload |
| BinaryWriters.BinaryWriter.WriteElems | UnrealBlackholio/Plugins/SpacetimeDB/Source/SpacetimeDB/Public/FBinaryWriter.h:89-93 | the loop writes each element's encoding in order, one after the other |
| BinaryWriters.BinaryWriter.WriteArray | UnrealBlackholio/Plugins/SpacetimeDB/Source/SpacetimeDB/Public/FBinaryWriter.h:86-94 | the element count and then the elements are written at the position |
| BinaryWriters.BinaryWriter.WriteStringArray | UnrealBlackholio/Plugins/SpacetimeDB/Source/SpacetimeDB/Private/FBinaryWriter.cpp:339-343 | the count and then each string, up to its first '\0', are written at the position |
| QueryIds.DecodeQueryId | UnrealBlackholio/Plugins/SpacetimeDB/Source/SpacetimeDB/Public/ClientApi/FQueryId.h:20-23 | reading a query id succeeds exactly when four bytes remain; the id is their little-endian value |
| QueryIds.EncodeQueryId | UnrealBlackholio/Plugins/SpacetimeDB/Source/SpacetimeDB/Public/ClientApi/FQueryId.h:25-28 | a query id is written as the four little-endian bytes of its value |
| QueryIds.QueryIdRoundTrip | UnrealBlackholio/Plugins/SpacetimeDB/Source/SpacetimeDB/Public/ClientApi/FQueryId.h:20-28 | a query id written by WriteFields is read back by ReadFields, which stops after its four bytes |
| QueryIds.QueryIdIsSound | UnrealBlackholio/Plugins/SpacetimeDB/Source/SpacetimeDB/Public/ClientApi/FQueryId.h:20-23 | reading a query id never moves backwards or past the end |
| QueryIds.ReadFields | UnrealBlackholio/Plugins/SpacetimeDB/Source/SpacetimeDB/Public/ClientApi/FQueryId.h:20-23 | the id is replaced by the next uint32 and the reader moves past it |
| QueryIds.WriteFields | UnrealBlackholio/Plugins/SpacetimeDB/Source/SpacetimeDB/Public/ClientApi/FQueryId.h:25-28 | the four bytes of the id are written at the position, which moves past them |
| ClientMessages.Tag | UnrealBlackholio/Plugins/SpacetimeDB/Source/SpacetimeDB/Public/ClientApi/FClientMessage.h:10-19 | the tag bytes of CallReducer to UnsubscribeMulti are 0 to 6 |
| ClientMessages.TagsAreDiscriminants | UnrealBlackholio/Plugins/SpacetimeDB/Source/SpacetimeDB/Public/ClientApi/FClientMessage.h:10-19 | each variant's payload is given the tag of its variant, 0 to 6 |
| ClientMessages.EncodableIsWritable | UnrealBlackholio/Plugins/SpacetimeDB/Source/SpacetimeDB/Public/ClientApi/FClientMessage.h:312-363 | a message whose strings and arrays read back can be written |
| ClientMessages.EncodeClientMessage | UnrealBlackholio/Plugins/SpacetimeDB/Source/SpacetimeDB/Public/ClientApi/FClientMessage.h:312-363 | Serialize writes the tag first; an unknown tag is written alone |
| ClientMessages.CallReducerRoundTrip | UnrealBlackholio/Plugins/SpacetimeDB/Source/SpacetimeDB/Public/ClientApi/FClientMessage.h:43-49 | the reducer name, the argument bytes, the uint32 request id and the flags byte, written with ASCII strings without '\0' and counts below 2^31, read back as written, ending after the payload |
| ClientMessages.SubscribeRoundTrip | UnrealBlackholio/Plugins/SpacetimeDB/Source/SpacetimeDB/Public/ClientApi/FClientMessage.h:65-69 | the query strings and the uint32 request id, written with ASCII strings without '\0' and counts below 2^31, read back as written, ending after the payload |
| ClientMessages.OneOffQueryRoundTrip | UnrealBlackholio/Plugins/SpacetimeDB/Source/SpacetimeDB/Public/ClientApi/FClientMessage.h:94-98 | the message id bytes and the query string, written with ASCII strings without '\0' and counts below 2^31, read back as written, ending after the payload |
| ClientMessages.SubscribeSingleRoundTrip | UnrealBlackholio/Plugins/SpacetimeDB/Source/SpacetimeDB/Public/ClientApi/FClientMessage.h:127-132 | the query string, the uint32 request id and the query id, written with ASCII strings without '\0' and counts below 2^31, read back as written, ending after the payload |
| ClientMessages.SubscribeMultiRoundTrip | UnrealBlackholio/Plugins/SpacetimeDB/Source/SpacetimeDB/Public/ClientApi/FClientMessage.h:161-166 | the query strings, the uint32 request id and the query id, written with ASCII strings without '\0' and counts below 2^31, read back as written, ending after the payload |
| ClientMessages.UnsubscribeRoundTrip | UnrealBlackholio/Plugins/SpacetimeDB/Source/SpacetimeDB/Public/ClientApi/FClientMessage.h:193-197 | the uint32 request id and the query id, written with ASCII strings without '\0' and counts below 2^31, read back as written, ending after the payload |
| ClientMessages.FieldsRoundTrip | UnrealBlackholio/Plugins/SpacetimeDB/Source/SpacetimeDB/Public/ClientApi/FClientMessage.h:248-310 | each variant's payload reads back as written after its tag, ending after its last byte |
| ClientMessages.DeserializeOfFields | UnrealBlackholio/Plugins/SpacetimeDB/Source/SpacetimeDB/Public/ClientApi/FClientMessage.h:248-310 | the tag and then the payload it names make the message Deserialize returns |
| ClientMessages.ClientMessageRoundTrip | UnrealBlackholio/Plugins/SpacetimeDB/Source/SpacetimeDB/Public/ClientApi/FClientMessage.h:248-363 | Deserialize reads back every message Serialize writes; the reader ends after the whole message for Subscribe and just past the tag for every variant read by value |
| ClientMessages.ReusedWriterOverwritesPayload | UnrealBlackholio/Plugins/SpacetimeDB/Source/SpacetimeDB/Public/ClientApi/FClientMessage.h:312-363 | since the writer stays just past the tag, a second message written with it puts its tag over the first one's payload |
| ClientMessages.ReadCallReducer | UnrealBlackholio/Plugins/SpacetimeDB/Source/SpacetimeDB/Public/ClientApi/FClientMessage.h:43-49 | the payload read from a copy of the reader; the caller's position does not move |
| ClientMessages.ReadSubscribe | UnrealBlackholio/Plugins/SpacetimeDB/Source/SpacetimeDB/Public/ClientApi/FClientMessage.h:65-69 | the payload read on the caller's reader, which moves past it |
| ClientMessages.ReadOneOffQuery | UnrealBlackholio/Plugins/SpacetimeDB/Source/SpacetimeDB/Public/ClientApi/FClientMessage.h:94-98 | the payload read from a copy of the reader; the caller's position does not move |
| ClientMessages.ReadSubscribeSingle | UnrealBlackholio/Plugins/SpacetimeDB/Source/SpacetimeDB/Public/ClientApi/FClientMessage.h:127-132 | the payload read from a copy of the reader; the caller's position does not move |
| ClientMessages.ReadSubscribeMulti | UnrealBlackholio/Plugins/SpacetimeDB/Source/SpacetimeDB/Public/ClientApi/FClientMessage.h:161-166 | the payload read from a copy of the reader; the caller's position does not move |
| ClientMessages.ReadUnsubscribe | UnrealBlackholio/Plugins/SpacetimeDB/Source/SpacetimeDB/Public/ClientApi/FClientMessage.h:193-197 | the payload (also FUnsubscribeMultiData's, at lines 223-227) read from a copy of the reader; the caller's position does not move |
| ClientMessages.Deserialize | UnrealBlackholio/Plugins/SpacetimeDB/Source/SpacetimeDB/Public/ClientApi/FClientMessage.h:248-310 | the tag, then the payload it names; an unknown tag is kept with no payload read; the result is what the message decoder returns |
| ClientMessages.WriteCallReducer | UnrealBlackholio/Plugins/SpacetimeDB/Source/SpacetimeDB/Public/ClientApi/FClientMessage.h:51-57 | the payload lands in the caller's array at the caller's position, which stays where it was |
| ClientMessages.WriteSubscribe | UnrealBlackholio/Plugins/SpacetimeDB/Source/SpacetimeDB/Public/ClientApi/FClientMessage.h:71-75 | the payload is written at the caller's position, which moves past it |
| ClientMessages.WriteOneOffQuery | UnrealBlackholio/Plugins/SpacetimeDB/Source/SpacetimeDB/Public/ClientApi/FClientMessage.h:100-104 | the payload lands in the caller's array at the caller's position, which stays where it was |
| ClientMessages.WriteSubscribeSingle | UnrealBlackholio/Plugins/SpacetimeDB/Source/SpacetimeDB/Public/ClientApi/FClientMessage.h:134-139 | the payload lands in the caller's array at the caller's position, which stays where it was |
| ClientMessages.WriteSubscribeMulti | UnrealBlackholio/Plugins/SpacetimeDB/Source/SpacetimeDB/Public/ClientApi/FClientMessage.h:168-173 | the payload lands in the caller's array at the caller's position, which stays where it was |
| ClientMessages.WriteUnsubscribe | UnrealBlackholio/Plugins/SpacetimeDB/Source/SpacetimeDB/Public/ClientApi/FClientMessage.h:199-203 | the payload (also FUnsubscribeMultiData's, at lines 229-233) lands at the caller's position, which stays where it was |
| ClientMessages.Serialize | UnrealBlackholio/Plugins/SpacetimeDB/Source/SpacetimeDB/Public/ClientApi/FClientMessage.h:312-363 | the array holds the tag and then the payload; the position moves past the whole message only for Subscribe, and by one byte otherwise |
| ServerUpdates.DecodeRowSizeHint | UnrealBlackholio/Plugins/SpacetimeDB/Source/SpacetimeDB/Public/ClientApi/FServerMessage.h:53-78 | ReadFields (the tag, then a uint16 size or the uint64 offsets) never moves the reader backwards or past the end |
| ServerUpdates.RowSizeHintRoundTrip | UnrealBlackholio/Plugins/SpacetimeDB/Source/SpacetimeDB/Public/ClientApi/FServerMessage.h:53-78 | a hint with a known tag reads back as written |
| ServerUpdates.ReadRowSizeHint | UnrealBlackholio/Plugins/SpacetimeDB/Source/SpacetimeDB/Public/ClientApi/FServerMessage.h:53-78 | ReadFields on the caller's reader returns what the decoder reads and moves past it |
| ServerUpdates.WriteRowSizeHint | UnrealBlackholio/Plugins/SpacetimeDB/Source/SpacetimeDB/Public/ClientApi/FServerMessage.h:80-101 | WriteFields writes the fields in the order they are read, at the caller's position, which moves past them |
| ServerUpdates.HintDefaultsToSize | UnrealBlackholio/Plugins/SpacetimeDB/Source/SpacetimeDB/Public/ClientApi/FServerMessage.h:53-78 | any tag but 1 is followed by a uint16 size, kept with the tag when the tag is not 0; the reader stops after three bytes |
| ServerUpdates.UnknownHintIsLost | UnrealBlackholio/Plugins/SpacetimeDB/Source/SpacetimeDB/Public/ClientApi/FServerMessage.h:80-101 | an unknown tag is written without its size, so such a hint does not survive the round trip |
| ServerUpdates.DecodeBsatnRowList | UnrealBlackholio/Plugins/SpacetimeDB/Source/SpacetimeDB/Public/ClientApi/FServerMessage.h:109-118 | ReadFields (the size hint, then the row bytes) never moves the reader backwards or past the end |
| ServerUpdates.BsatnRowListRoundTrip | UnrealBlackholio/Plugins/SpacetimeDB/Source/SpacetimeDB/Public/ClientApi/FServerMessage.h:109-118 | a row list with a known hint reads back as written |
| ServerUpdates.ReadBsatnRowList | UnrealBlackholio/Plugins/SpacetimeDB/Source/SpacetimeDB/Public/ClientApi/FServerMessage.h:109-118 | ReadFields on the caller's reader returns what the decoder reads and moves past it |
| ServerUpdates.WriteBsatnRowList | UnrealBlackholio/Plugins/SpacetimeDB/Source/SpacetimeDB/Public/ClientApi/FServerMessage.h:120-128 | WriteFields writes the fields in the order they are read, at the caller's position, which moves past them |
| ServerUpdates.DecodeQueryUpdate | UnrealBlackholio/Plugins/SpacetimeDB/Source/SpacetimeDB/Public/ClientApi/FServerMessage.h:136-140 | ReadFields (the deletes, then the inserts) never moves the reader backwards or past the end |
| ServerUpdates.QueryUpdateRoundTrip | UnrealBlackholio/Plugins/SpacetimeDB/Source/SpacetimeDB/Public/ClientApi/FServerMessage.h:136-140 | an update whose two row lists read back reads back as written |
| ServerUpdates.ReadQueryUpdate | UnrealBlackholio/Plugins/SpacetimeDB/Source/SpacetimeDB/Public/ClientApi/FServerMessage.h:136-140 | ReadFields on the caller's reader returns what the decoder reads and moves past it |
| ServerUpdates.WriteQueryUpdate | UnrealBlackholio/Plugins/SpacetimeDB/Source/SpacetimeDB/Public/ClientApi/FServerMessage.h:142-146 | WriteFields writes the fields in the order they are read, at the caller's position, which moves past them |
| ServerUpdates.DecodeCompressableQueryUpdate | UnrealBlackholio/Plugins/SpacetimeDB/Source/SpacetimeDB/Public/ClientApi/FServerMessage.h:165-192 | ReadFields (the tag; the compressed bytes for tags 1 and 2, the row lists for any other tag) never moves the reader backwards or past the end |
| ServerUpdates.CompressableQueryUpdateRoundTrip | UnrealBlackholio/Plugins/SpacetimeDB/Source/SpacetimeDB/Public/ClientApi/FServerMessage.h:165-192 | every variant, an unknown tag with its row lists included, reads back as written |
| ServerUpdates.ReadCompressableQueryUpdate | UnrealBlackholio/Plugins/SpacetimeDB/Source/SpacetimeDB/Public/ClientApi/FServerMessage.h:165-192 | ReadFields on the caller's reader returns what the decoder reads and moves past it |
| ServerUpdates.WriteCompressableQueryUpdate | UnrealBlackholio/Plugins/SpacetimeDB/Source/SpacetimeDB/Public/ClientApi/FServerMessage.h:194-219 | WriteFields writes the fields in the order they are read, at the caller's position, which moves past them |
| ServerUpdates.CompressedRoundTrip | UnrealBlackholio/Plugins/SpacetimeDB/Source/SpacetimeDB/Public/ClientApi/FServerMessage.h:165-192 | the bytes of a Brotli or Gzip update follow its tag and read back |
| ServerUpdates.RowListsRoundTrip | UnrealBlackholio/Plugins/SpacetimeDB/Source/SpacetimeDB/Public/ClientApi/FServerMessage.h:165-192 | the row lists of an uncompressed update, or of one whose tag names no compression, follow its tag and read back |
| ServerUpdates.CompressableQueryUpdateIsSound | UnrealBlackholio/Plugins/SpacetimeDB/Source/SpacetimeDB/Public/ClientApi/FServerMessage.h:165-192 | reading a compressable update never moves backwards or past the end |
| ServerUpdates.CompressableQueryUpdateArrayRoundTrip | UnrealBlackholio/Plugins/SpacetimeDB/Source/SpacetimeDB/Public/ClientApi/FServerMessage.h:229-242 | an array of updates that each read back reads back as written |
| ServerUpdates.DecodeTableUpdate | UnrealBlackholio/Plugins/SpacetimeDB/Source/SpacetimeDB/Public/ClientApi/FServerMessage.h:229-242 | ReadFields (the uint32 id, the name, the uint64 row count, then the updates) never moves the reader backwards or past the end |
| ServerUpdates.TableUpdateRoundTrip | UnrealBlackholio/Plugins/SpacetimeDB/Source/SpacetimeDB/Public/ClientApi/FServerMessage.h:229-242 | a table update with an ASCII name without '\0' reads back as written |
| ServerUpdates.ReadTableUpdate | UnrealBlackholio/Plugins/SpacetimeDB/Source/SpacetimeDB/Public/ClientApi/FServerMessage.h:229-242 | ReadFields on the caller's reader returns what the decoder reads and moves past it |
| ServerUpdates.WriteTableUpdate | UnrealBlackholio/Plugins/SpacetimeDB/Source/SpacetimeDB/Public/ClientApi/FServerMessage.h:244-255 | WriteFields writes the fields in the order they are read, at the caller's position, which moves past them |
| ServerUpdates.TableUpdateIsSound | UnrealBlackholio/Plugins/SpacetimeDB/Source/SpacetimeDB/Public/ClientApi/FServerMessage.h:229-242 | reading a table update never moves backwards or past the end |
| ServerUpdates.TableUpdateArrayRoundTrip | UnrealBlackholio/Plugins/SpacetimeDB/Source/SpacetimeDB/Public/ClientApi/FServerMessage.h:262-272 | an array of table updates that each read back reads back as written |
| ServerUpdates.DecodeDatabaseUpdate | UnrealBlackholio/Plugins/SpacetimeDB/Source/SpacetimeDB/Public/ClientApi/FServerMessage.h:262-272 | ReadFields (the array of table updates) never moves the reader backwards or past the end |
| ServerUpdates.DatabaseUpdateRoundTrip | UnrealBlackholio/Plugins/SpacetimeDB/Source/SpacetimeDB/Public/ClientApi/FServerMessage.h:262-272 | a database update whose tables read back reads back as written |
| ServerUpdates.ReadDatabaseUpdate | UnrealBlackholio/Plugins/SpacetimeDB/Source/SpacetimeDB/Public/ClientApi/FServerMessage.h:262-272 | ReadFields on the caller's reader returns what the decoder reads and moves past it |
| ServerUpdates.WriteDatabaseUpdate | UnrealBlackholio/Plugins/SpacetimeDB/Source/SpacetimeDB/Public/ClientApi/FServerMessage.h:274-282 | WriteFields writes the fields in the order they are read, at the caller's position, which moves past them |
| ServerUpdates.DecodeOneOffTable | UnrealBlackholio/Plugins/SpacetimeDB/Source/SpacetimeDB/Public/ClientApi/FServerMessage.h:577-581 | ReadFields (the name, then the rows) never moves the reader backwards or past the end |
| ServerUpdates.OneOffTableRoundTrip | UnrealBlackholio/Plugins/SpacetimeDB/Source/SpacetimeDB/Public/ClientApi/FServerMessage.h:577-581 | a one-off table with an ASCII name without '\0' reads back as written |
| ServerUpdates.ReadOneOffTable | UnrealBlackholio/Plugins/SpacetimeDB/Source/SpacetimeDB/Public/ClientApi/FServerMessage.h:577-581 | ReadFields on the caller's reader returns what the decoder reads and moves past it |
| ServerUpdates.WriteOneOffTable | UnrealBlackholio/Plugins/SpacetimeDB/Source/SpacetimeDB/Public/ClientApi/FServerMessage.h:583-587 | WriteFields writes the fields in the order they are read, at the caller's position, which moves past them |
| ServerUpdates.OneOffTableIsSound | UnrealBlackholio/Plugins/SpacetimeDB/Source/SpacetimeDB/Public/ClientApi/FServerMessage.h:577-581 | reading a one-off table never moves backwards or past the end |
| ServerUpdates.OneOffTableArrayRoundTrip | UnrealBlackholio/Plugins/SpacetimeDB/Source/SpacetimeDB/Public/ClientApi/FServerMessage.h:614-626 | an array of one-off tables that each read back reads back as written |
| ServerUpdates.DecodeSubscribeRows | UnrealBlackholio/Plugins/SpacetimeDB/Source/SpacetimeDB/Public/ClientApi/FServerMessage.h:663-668 | ReadFields (the uint32 table id, the name, then the table update) never moves the reader backwards or past the end |
| ServerUpdates.SubscribeRowsRoundTrip | UnrealBlackholio/Plugins/SpacetimeDB/Source/SpacetimeDB/Public/ClientApi/FServerMessage.h:663-668 | subscribed rows with an ASCII name without '\0' read back as written |
| ServerUpdates.ReadSubscribeRows | UnrealBlackholio/Plugins/SpacetimeDB/Source/SpacetimeDB/Public/ClientApi/FServerMessage.h:663-668 | ReadFields on the caller's reader returns what the decoder reads and moves past it |
| ServerUpdates.WriteSubscribeRows | UnrealBlackholio/Plugins/SpacetimeDB/Source/SpacetimeDB/Public/ClientApi/FServerMessage.h:670-675 | WriteFields writes the fields in the order they are read, at the caller's position, which moves past them |
| ServerMessages.DecodeInitialSubscriptionData | UnrealBlackholio/Plugins/SpacetimeDB/Source/SpacetimeDB/Public/ClientApi/FServerMessage.h:291-296 | ReadFields (the database update, the uint32 request id, then the duration) never moves the reader backwards or past the end |
| ServerMessages.InitialSubscriptionDataRoundTrip | UnrealBlackholio/Plugins/SpacetimeDB/Source/SpacetimeDB/Public/ClientApi/FServerMessage.h:291-296 | initial subscription data whose update reads back reads back as written |
| ServerMessages.ReadInitialSubscriptionData | UnrealBlackholio/Plugins/SpacetimeDB/Source/SpacetimeDB/Public/ClientApi/FServerMessage.h:291-296 | ReadFields on the caller's reader returns what the decoder reads and moves past it |
| ServerMessages.WriteInitialSubscriptionData | UnrealBlackholio/Plugins/SpacetimeDB/Source/SpacetimeDB/Public/ClientApi/FServerMessage.h:298-303 | WriteField takes the writer by value: the bytes land in the caller's array at the caller's position, which stays where it was |
| ServerMessages.DecodeUpdateStatus | UnrealBlackholio/Plugins/SpacetimeDB/Source/SpacetimeDB/Public/ClientApi/FServerMessage.h:334-362 | ReadFields (the tag; a database update for tag 0, nothing for tag 2, a message for any other tag) never moves the reader backwards or past the end |
| ServerMessages.UpdateStatusRoundTrip | UnrealBlackholio/Plugins/SpacetimeDB/Source/SpacetimeDB/Public/ClientApi/FServerMessage.h:334-362 | every status with a known tag reads back as written |
| ServerMessages.ReadUpdateStatus | UnrealBlackholio/Plugins/SpacetimeDB/Source/SpacetimeDB/Public/ClientApi/FServerMessage.h:334-362 | ReadFields on the caller's reader returns what the decoder reads and moves past it |
| ServerMessages.WriteUpdateStatus | UnrealBlackholio/Plugins/SpacetimeDB/Source/SpacetimeDB/Public/ClientApi/FServerMessage.h:364-390 | WriteFields writes the fields in the order they are read, at the caller's position, which moves past them |
| ServerMessages.CommittedRoundTrip | UnrealBlackholio/Plugins/SpacetimeDB/Source/SpacetimeDB/Public/ClientApi/FServerMessage.h:334-362 | the database update of a committed status follows its tag and reads back |
| ServerMessages.FailedRoundTrip | UnrealBlackholio/Plugins/SpacetimeDB/Source/SpacetimeDB/Public/ClientApi/FServerMessage.h:334-362 | the message of a failed status follows its tag and reads back |
| ServerMessages.StatusDefaultsToMessage | UnrealBlackholio/Plugins/SpacetimeDB/Source/SpacetimeDB/Public/ClientApi/FServerMessage.h:334-362 | any tag but 0 and 2 is followed by a message string, kept with the tag when the tag is not 1 |
| ServerMessages.UnknownStatusIsLost | UnrealBlackholio/Plugins/SpacetimeDB/Source/SpacetimeDB/Public/ClientApi/FServerMessage.h:364-390 | an unknown tag is written without its message, so such a status does not survive the round trip |
| ServerMessages.DecodeReducerCallInfo | UnrealBlackholio/Plugins/SpacetimeDB/Source/SpacetimeDB/Public/ClientApi/FServerMessage.h:415-421 | ReadFields (the name, the uint32 reducer id, the argument bytes, then the uint32 request id) never moves the reader backwards or past the end |
| ServerMessages.ReducerCallInfoRoundTrip | UnrealBlackholio/Plugins/SpacetimeDB/Source/SpacetimeDB/Public/ClientApi/FServerMessage.h:415-421 | a reducer call with an ASCII name without '\0' reads back as written |
| ServerMessages.ReadReducerCallInfo | UnrealBlackholio/Plugins/SpacetimeDB/Source/SpacetimeDB/Public/ClientApi/FServerMessage.h:415-421 | ReadFields on the caller's reader returns what the decoder reads and moves past it |
| ServerMessages.WriteReducerCallInfo | UnrealBlackholio/Plugins/SpacetimeDB/Source/SpacetimeDB/Public/ClientApi/FServerMessage.h:423-429 | WriteFields writes the fields in the order they are read, at the caller's position, which moves past them |
| ServerMessages.DecodeEnergyQuanta | UnrealBlackholio/Plugins/SpacetimeDB/Source/SpacetimeDB/Public/ClientApi/FServerMessage.h:436-439 | ReadFields (the sixteen bytes of the count) never moves the reader backwards or past the end |
| ServerMessages.EnergyQuantaRoundTrip | UnrealBlackholio/Plugins/SpacetimeDB/Source/SpacetimeDB/Public/ClientApi/FServerMessage.h:436-444 | every energy count reads back as written |
| ServerMessages.ReadEnergyQuanta | UnrealBlackholio/Plugins/SpacetimeDB/Source/SpacetimeDB/Public/ClientApi/FServerMessage.h:436-439 | ReadFields on the caller's reader returns what the decoder reads and moves past it |
| ServerMessages.WriteEnergyQuanta | UnrealBlackholio/Plugins/SpacetimeDB/Source/SpacetimeDB/Public/ClientApi/FServerMessage.h:441-444 | WriteFields writes the count at the caller's position, which moves past it |
| ServerMessages.DecodeTransactionUpdateData | UnrealBlackholio/Plugins/SpacetimeDB/Source/SpacetimeDB/Public/ClientApi/FServerMessage.h:486-495 | ReadFields (the status, the timestamp, the caller's identity and connection id, the reducer call, the energy used, then the duration) never moves the reader backwards or past the end |
| ServerMessages.TransactionUpdateDataRoundTrip | UnrealBlackholio/Plugins/SpacetimeDB/Source/SpacetimeDB/Public/ClientApi/FServerMessage.h:486-495 | a transaction update with a known status and ASCII strings without '\0' reads back as written |
| ServerMessages.ReadTransactionUpdateData | UnrealBlackholio/Plugins/SpacetimeDB/Source/SpacetimeDB/Public/ClientApi/FServerMessage.h:486-495 | ReadFields on the caller's reader returns what the decoder reads and moves past it |
| ServerMessages.WriteTransactionUpdateData | UnrealBlackholio/Plugins/SpacetimeDB/Source/SpacetimeDB/Public/ClientApi/FServerMessage.h:497-506 | WriteFields writes the fields in the order they are read, at the caller's position, which moves past them |
| ServerMessages.DecodeTransactionUpdateLightData | UnrealBlackholio/Plugins/SpacetimeDB/Source/SpacetimeDB/Public/ClientApi/FServerMessage.h:526-530 | ReadFields (the uint32 request id, then the database update) never moves the reader backwards or past the end |
| ServerMessages.TransactionUpdateLightDataRoundTrip | UnrealBlackholio/Plugins/SpacetimeDB/Source/SpacetimeDB/Public/ClientApi/FServerMessage.h:526-530 | a light transaction update whose update reads back reads back as written |
| ServerMessages.ReadTransactionUpdateLightData | UnrealBlackholio/Plugins/SpacetimeDB/Source/SpacetimeDB/Public/ClientApi/FServerMessage.h:526-530 | ReadFields on the caller's reader returns what the decoder reads and moves past it |
| ServerMessages.WriteTransactionUpdateLightData | UnrealBlackholio/Plugins/SpacetimeDB/Source/SpacetimeDB/Public/ClientApi/FServerMessage.h:532-536 | WriteFields writes the fields in the order they are read, at the caller's position, which moves past them |
| ServerMessages.DecodeIdentityTokenData | UnrealBlackholio/Plugins/SpacetimeDB/Source/SpacetimeDB/Public/ClientApi/FServerMessage.h:545-550 | ReadFields (the identity, the token, then the connection id) never moves the reader backwards or past the end |
| ServerMessages.IdentityTokenDataRoundTrip | UnrealBlackholio/Plugins/SpacetimeDB/Source/SpacetimeDB/Public/ClientApi/FServerMessage.h:545-550 | identity token data with an ASCII token without '\0' reads back as written |
| ServerMessages.ReadIdentityTokenData | UnrealBlackholio/Plugins/SpacetimeDB/Source/SpacetimeDB/Public/ClientApi/FServerMessage.h:545-550 | ReadFields on the caller's reader returns what the decoder reads and moves past it |
| ServerMessages.WriteIdentityTokenData | UnrealBlackholio/Plugins/SpacetimeDB/Source/SpacetimeDB/Public/ClientApi/FServerMessage.h:552-557 | WriteField takes the writer by value: the bytes land in the caller's array at the caller's position, which stays where it was |
| ServerMessages.DecodeOneOffQueryResponseData | UnrealBlackholio/Plugins/SpacetimeDB/Source/SpacetimeDB/Public/ClientApi/FServerMessage.h:614-626 | ReadFields (the message id bytes, the optional error, the tables, then the duration) never moves the reader backwards or past the end |
| ServerMessages.OneOffQueryResponseDataRoundTrip | UnrealBlackholio/Plugins/SpacetimeDB/Source/SpacetimeDB/Public/ClientApi/FServerMessage.h:614-626 | a one-off query response with ASCII strings without '\0' reads back as written |
| ServerMessages.ReadOneOffQueryResponseData | UnrealBlackholio/Plugins/SpacetimeDB/Source/SpacetimeDB/Public/ClientApi/FServerMessage.h:614-626 | ReadFields on the caller's reader returns what the decoder reads and moves past it |
| ServerMessages.WriteOneOffQueryResponseData | UnrealBlackholio/Plugins/SpacetimeDB/Source/SpacetimeDB/Public/ClientApi/FServerMessage.h:628-638 | WriteFields writes the fields in the order they are read, at the caller's position, which moves past them |
| ServerMessages.DecodeSubscribeAppliedData | UnrealBlackholio/Plugins/SpacetimeDB/Source/SpacetimeDB/Public/ClientApi/FServerMessage.h:705-711 | ReadFields (the uint32 request id, the uint64 duration, the query id, then the rows) never moves the reader backwards or past the end |
| ServerMessages.SubscribeAppliedDataRoundTrip | UnrealBlackholio/Plugins/SpacetimeDB/Source/SpacetimeDB/Public/ClientApi/FServerMessage.h:705-711 | applied data whose rows read back reads back as written (FUnsubscribeAppliedData, lines 749-763, has the same fields) |
| ServerMessages.ReadSubscribeAppliedData | UnrealBlackholio/Plugins/SpacetimeDB/Source/SpacetimeDB/Public/ClientApi/FServerMessage.h:705-711 | ReadFields on the caller's reader returns what the decoder reads and moves past it |
| ServerMessages.WriteSubscribeAppliedData | UnrealBlackholio/Plugins/SpacetimeDB/Source/SpacetimeDB/Public/ClientApi/FServerMessage.h:713-719 | WriteFields writes the fields in the order they are read, at the caller's position, which moves past them |
| ServerMessages.DecodeSubscriptionErrorData | UnrealBlackholio/Plugins/SpacetimeDB/Source/SpacetimeDB/Public/ClientApi/FServerMessage.h:794-801 | ReadFields (the uint64 duration, the optional request, query and table ids, then the error) never moves the reader backwards or past the end |
| ServerMessages.SubscriptionErrorDataRoundTrip | UnrealBlackholio/Plugins/SpacetimeDB/Source/SpacetimeDB/Public/ClientApi/FServerMessage.h:794-801 | subscription error data with an ASCII error without '\0' reads back as written |
| ServerMessages.ReadSubscriptionErrorData | UnrealBlackholio/Plugins/SpacetimeDB/Source/SpacetimeDB/Public/ClientApi/FServerMessage.h:794-801 | ReadFields on the caller's reader returns what the decoder reads and moves past it |
| ServerMessages.WriteSubscriptionErrorData | UnrealBlackholio/Plugins/SpacetimeDB/Source/SpacetimeDB/Public/ClientApi/FServerMessage.h:803-810 | WriteFields writes the fields in the order they are read, at the caller's position, which moves past them |
| ServerMessages.DecodeSubscribeMultiAppliedData | UnrealBlackholio/Plugins/SpacetimeDB/Source/SpacetimeDB/Public/ClientApi/FServerMessage.h:840-846 | ReadFields (the uint32 request id, the uint64 duration, the query id, then the database update) never moves the reader backwards or past the end |
| ServerMessages.SubscribeMultiAppliedDataRoundTrip | UnrealBlackholio/Plugins/SpacetimeDB/Source/SpacetimeDB/Public/ClientApi/FServerMessage.h:840-846 | multi-applied data whose update reads back reads back as written (FUnsubscribeMultiAppliedData, lines 884-898, has the same fields) |
| ServerMessages.ReadSubscribeMultiAppliedData | UnrealBlackholio/Plugins/SpacetimeDB/Source/SpacetimeDB/Public/ClientApi/FServerMessage.h:840-846 | ReadFields on the caller's reader returns what the decoder reads and moves past it |
| ServerMessages.WriteSubscribeMultiAppliedData | UnrealBlackholio/Plugins/SpacetimeDB/Source/SpacetimeDB/Public/ClientApi/FServerMessage.h:848-854 | WriteFields writes the fields in the order they are read, at the caller's position, which moves past them |
| ServerMessages.EncodeServerMessage | UnrealBlackholio/Plugins/SpacetimeDB/Source/SpacetimeDB/Public/ClientApi/FServerMessage.h:901-1003 | a message starts with its tag; an unknown tag stands alone |
| ServerMessages.ServerFieldsRoundTrip | UnrealBlackholio/Plugins/SpacetimeDB/Source/SpacetimeDB/Public/ClientApi/FServerMessage.h:916-1002 | each variant's payload reads back after its tag, ending after its last byte |
| ServerMessages.DeserializeOfServerFields | UnrealBlackholio/Plugins/SpacetimeDB/Source/SpacetimeDB/Public/ClientApi/FServerMessage.h:916-1002 | the tag and then the payload it names make the message Deserialize returns |
| ServerMessages.ServerMessageRoundTrip | UnrealBlackholio/Plugins/SpacetimeDB/Source/SpacetimeDB/Public/ClientApi/FServerMessage.h:916-1002 | Deserialize reads back every message the server writes with a known tag and ASCII strings without '\0', and the reader ends after the whole message |
| ServerMessages.UnknownTagReadsNothing | UnrealBlackholio/Plugins/SpacetimeDB/Source/SpacetimeDB/Public/ClientApi/FServerMessage.h:916-1002 | a tag of 10 or more is kept and nothing after it is read |
| ServerMessages.Deserialize | UnrealBlackholio/Plugins/SpacetimeDB/Source/SpacetimeDB/Public/ClientApi/FServerMessage.h:916-1002 | the tag, then the payload it names, read on the caller's reader; the result is what the message decoder returns |
| ClientBase.CompressionToString | UnrealBlackholio/Plugins/SpacetimeDB/Source/SpacetimeDB/Public/FStdbClientBase.h:92-104 | the name is "Gzip" exactly for the Gzip mode and "None" for every other mode |
| ClientBase.PrintIsLowercase | UnrealBlackholio/Plugins/SpacetimeDB/Source/SpacetimeDB/Public/FStdbClientBase.h:113-114 | bytes printed for the connection id use only the digits 0-9 and a-f |
| ClientBase.GenerateConnectionIdHex | UnrealBlackholio/Plugins/SpacetimeDB/Source/SpacetimeDB/Public/FStdbClientBase.h:107-116 | sixteen random bytes become 32 lowercase hex digits, first byte first, and HexStringToBytes gives the bytes back |
| ClientBase.UrlFlags | UnrealBlackholio/Plugins/SpacetimeDB/Source/SpacetimeDB/Private/FStdbClientBase.cpp:180-190 | the URL ends with "&light=true" exactly in light mode, and otherwise with the compression name |
| ClientBase.UpgradeHeaders | UnrealBlackholio/Plugins/SpacetimeDB/Source/SpacetimeDB/Private/FStdbClientBase.cpp:192-196 | the only header is a bearer Authorization header, present exactly when a token was given |
| ClientBase.ShortFrameLeavesMessage | UnrealBlackholio/Plugins/SpacetimeDB/Source/SpacetimeDB/Private/FStdbClientBase.cpp:326-330 | an empty frame, or one holding only its first byte outside the Gzip mode, leaves the out-parameter as it was |
| ClientBase.FirstByteIsIgnored | UnrealBlackholio/Plugins/SpacetimeDB/Source/SpacetimeDB/Private/FStdbClientBase.cpp:331-375 | the switch is on the configured mode, not on the frame's first byte: frames that differ only there decode alike |
| ClientBase.PassThroughRoundTrip | UnrealBlackholio/Plugins/SpacetimeDB/Source/SpacetimeDB/Private/FStdbClientBase.cpp:331-382 | outside the Gzip mode any first byte followed by a message the server sent decodes to that message |
| ClientBase.InflatedRoundTrip | UnrealBlackholio/Plugins/SpacetimeDB/Source/SpacetimeDB/Private/FStdbClientBase.cpp:337-382 | in the Gzip mode a frame whose rest inflates to a message the server sent decodes to that message |
| ClientBase.DecodeFrames | UnrealBlackholio/Plugins/SpacetimeDB/Source/SpacetimeDB/Private/FStdbClientBase.cpp:68-77 | one worker pass queues one processed message per raw frame |
| ClientBase.DecodeFramesAt | UnrealBlackholio/Plugins/SpacetimeDB/Source/SpacetimeDB/Private/FStdbClientBase.cpp:68-77 | the i-th message queued comes from the i-th frame, so arrival order is kept |
| ClientBase.EncodeAll | UnrealBlackholio/Plugins/SpacetimeDB/Source/SpacetimeDB/Private/FStdbClientBase.cpp:80-84 | one frame is sent per queued client message |
| ClientBase.EncodeAllSnoc | UnrealBlackholio/Plugins/SpacetimeDB/Source/SpacetimeDB/Private/FStdbClientBase.cpp:80-84 | sending one more message sends one more frame, last |
| ClientBase.EncodeAllAt | UnrealBlackholio/Plugins/SpacetimeDB/Source/SpacetimeDB/Private/FStdbClientBase.cpp:80-84 | the i-th frame sent is the serialization of the i-th message queued |
| ClientBase.SentFramesReadBack | UnrealBlackholio/Plugins/SpacetimeDB/Source/SpacetimeDB/Private/FStdbClientBase.cpp:312-320 | every frame sent reads back, at the server, as the message that was queued |
| ClientBase.LegacySubscriptionIsSendable | UnrealBlackholio/Plugins/SpacetimeDB/Source/SpacetimeDB/Private/FStdbClientBase.cpp:132-145 | the legacy subscription ("SELECT * FROM *", request id 1) can be written and reads back as itself |
| ClientBase.Greetings | UnrealBlackholio/Plugins/SpacetimeDB/Source/SpacetimeDB/Private/FStdbClientBase.cpp:152-158 | a run of messages greets OnConnect at most once per message |
| ClientBase.IdentityIsLastToken | UnrealBlackholio/Plugins/SpacetimeDB/Source/SpacetimeDB/Private/FStdbClientBase.cpp:152-158 | after a run of messages the identity is the one the last IdentityToken carried |
| ClientBase.NoTokenKeepsIdentity | UnrealBlackholio/Plugins/SpacetimeDB/Source/SpacetimeDB/Private/FStdbClientBase.cpp:147-174 | without an IdentityToken the identity is kept and OnConnect is not called |
| ClientBase.GreetingsCountTokens | UnrealBlackholio/Plugins/SpacetimeDB/Source/SpacetimeDB/Private/FStdbClientBase.cpp:152-158 | OnConnect is called once per IdentityToken in the run |
| ClientBase.StdbClient.constructor | UnrealBlackholio/Plugins/SpacetimeDB/Source/SpacetimeDB/Private/FStdbClientBase.cpp:18-35 | a new client keeps its settings, holds the connection id printed from sixteen random bytes, has nothing queued, no socket, and is not stopped |
| ClientBase.StdbClient.BindDelegates | UnrealBlackholio/Plugins/SpacetimeDB/Source/SpacetimeDB/Private/FStdbClientBuilder.cpp:70-80 | the builder binds OnConnect and the other delegates |
| ClientBase.StdbClient.Stop | UnrealBlackholio/Plugins/SpacetimeDB/Source/SpacetimeDB/Private/FStdbClientBase.cpp:91-95 | the stop flag is set, so the worker loop ends and later frames are dropped |
| ClientBase.StdbClient.Connect | UnrealBlackholio/Plugins/SpacetimeDB/Source/SpacetimeDB/Private/FStdbClientBase.cpp:102-109 | the stop flag is cleared and the worker is asked to connect |
| ClientBase.StdbClient.TeardownWebSocket | UnrealBlackholio/Plugins/SpacetimeDB/Source/SpacetimeDB/Private/FStdbClientBase.cpp:248-261 | an open socket loses its handlers, is closed with code 1000 and dropped, and the callbacks must be set up again; with no socket nothing changes |
| ClientBase.StdbClient.Shutdown | UnrealBlackholio/Plugins/SpacetimeDB/Source/SpacetimeDB/Private/FStdbClientBase.cpp:111-121 | the client is stopped, its delegates unbound and its socket torn down, with close code 1000 logged exactly when one was open |
| ClientBase.StdbClient.HandleRawMessage | UnrealBlackholio/Plugins/SpacetimeDB/Source/SpacetimeDB/Private/FStdbClientBase.cpp:276-296 | called only through the handler bound on the current socket; a frame is dropped once stopped; one above 0x4000000 bytes closes the socket with code 1013 and is not queued; any other is queued last with its arrival time |
| ClientBase.StdbClient.DecompressAndDeserialize | UnrealBlackholio/Plugins/SpacetimeDB/Source/SpacetimeDB/Private/FStdbClientBase.cpp:322-383 | the result is the frame's message as the configured mode decodes it, or the out-parameter unchanged when nothing is left to read |
| ClientBase.StdbClient.ProcessRawFrames | UnrealBlackholio/Plugins/SpacetimeDB/Source/SpacetimeDB/Private/FStdbClientBase.cpp:68-77 | every raw frame, oldest first, becomes one processed message queued last, and the raw queue is left empty |
| ClientBase.StdbClient.SendClientMessage | UnrealBlackholio/Plugins/SpacetimeDB/Source/SpacetimeDB/Private/FStdbClientBase.cpp:312-320 | on an existing socket, exactly the serialized message is sent as one frame |
| ClientBase.StdbClient.SendQueuedMessages | UnrealBlackholio/Plugins/SpacetimeDB/Source/SpacetimeDB/Private/FStdbClientBase.cpp:80-84 | every queued client message, oldest first, is sent on the existing socket, and the queue is left empty |
| ClientBase.StdbClient.ConnectWebSocket | UnrealBlackholio/Plugins/SpacetimeDB/Source/SpacetimeDB/Private/FStdbClientBase.cpp:177-246 | the request carries the subscribe URL, protocol and headers; the result is true exactly when the socket was created and connected in time; each failure leaves its error text; a created socket gets handlers only when the callbacks flag was clear |
| ClientBase.StdbClient.RunCycle | UnrealBlackholio/Plugins/SpacetimeDB/Source/SpacetimeDB/Private/FStdbClientBase.cpp:59-89 | one pass connects when asked, with ConnectWebSocket's request, socket, flags and error text, and otherwise leaves them all as they were; it then turns every raw frame into a processed message in arrival order and sends every queued client message in order |
| ClientBase.StdbClient.HandleProcessedMessage | UnrealBlackholio/Plugins/SpacetimeDB/Source/SpacetimeDB/Private/FStdbClientBase.cpp:147-174 | an IdentityToken sets the identity and greets a bound OnConnect; any other message changes nothing |
| ClientBase.StdbClient.FrameTick | UnrealBlackholio/Plugins/SpacetimeDB/Source/SpacetimeDB/Private/FStdbClientBase.cpp:123-130 | every processed message, oldest first, is handled once, and the queue is left empty |
| ClientBase.RetryAfterTimeoutIsDeaf | UnrealBlackholio/Plugins/SpacetimeDB/Source/SpacetimeDB/Private/FStdbClientBase.cpp:177-274 | after a handshake that times out, the socket of the next connect opens but has no raw-message handler, because the callbacks flag stayed set |
| ClientBase.StdbClient.LegacySubscribe | UnrealBlackholio/Plugins/SpacetimeDB/Source/SpacetimeDB/Private/FStdbClientBase.cpp:132-145 | the legacy subscription is queued last exactly when the socket is connected |
| NetworkManager.Without | UnrealBlackholio/Plugins/SpacetimeDB/Source/SpacetimeDB/Private/UStdbNetworkManager.cpp:31-34 | TArray::Remove leaves only entries of the old list, drops every copy of the connection, and keeps the list unchanged when it was absent |
| NetworkManager.WithoutConcat | UnrealBlackholio/Plugins/SpacetimeDB/Source/SpacetimeDB/Private/UStdbNetworkManager.cpp:31-34 | removing from two lists joined is removing from each and joining the results |
| NetworkManager.WithoutDistinct | UnrealBlackholio/Plugins/SpacetimeDB/Source/SpacetimeDB/Private/UStdbNetworkManager.cpp:31-34 | in a list without duplicates, removal leaves the entries before and after the connection, in order |
| NetworkManager.WithoutKeepsDistinct | UnrealBlackholio/Plugins/SpacetimeDB/Source/SpacetimeDB/Private/UStdbNetworkManager.cpp:31-34 | removal from a list without duplicates leaves none |
| NetworkManager.Reversed | UnrealBlackholio/Plugins/SpacetimeDB/Source/SpacetimeDB/Private/UStdbNetworkManager.cpp:36-42 | the visiting order is the list from its last entry to its first |
| NetworkManager.Manager.constructor | UnrealBlackholio/Plugins/SpacetimeDB/Source/SpacetimeDB/Public/UStdbNetworkManager.h:47 | the manager starts with no connections |
| NetworkManager.Manager.AddConnection | UnrealBlackholio/Plugins/SpacetimeDB/Source/SpacetimeDB/Private/UStdbNetworkManager.cpp:24-29 | a connection already listed is refused and nothing changes; otherwise it is appended and the result is true; no entry is ever listed twice |
| NetworkManager.Manager.RemoveConnection | UnrealBlackholio/Plugins/SpacetimeDB/Source/SpacetimeDB/Private/UStdbNetworkManager.cpp:31-34 | the result is true exactly when the connection was listed; it is removed and the others keep their order |
| NetworkManager.Manager.ForEachConnection | UnrealBlackholio/Plugins/SpacetimeDB/Source/SpacetimeDB/Private/UStdbNetworkManager.cpp:36-42 | every entry is visited once, last first |
| NetworkManager.Manager.Deinitialize | UnrealBlackholio/Plugins/SpacetimeDB/Source/SpacetimeDB/Private/UStdbNetworkManager.cpp:63-75 | every listed connection is shut down (stopped, unbound, socket dropped, close code 1000 logged exactly when a socket was open) and the list is emptied; no other client field changes |
| NetworkManager.Manager.TickNetwork | UnrealBlackholio/Plugins/SpacetimeDB/Source/SpacetimeDB/Private/UStdbNetworkManager.cpp:45-54 | FrameTick runs on every listed connection: its identity is the last token's, a bound OnConnect is greeted once per token, its queue is left empty, and no other client field changes |

## Left out

- Threads and events: the worker thread, `WakeEvent` and `ConnectEvent`, the thread-safe flags and the thread safety of the queues. The queues are sequences; one pass of the worker loop is `RunCycle`, and `Run`'s loop and waits are not modelled.
- WebSocket I/O: the socket is reduced to ghost state. Connection requests, sent frames and close codes are appended to logs. Creation success and the handshake outcome are parameters of `ConnectWebSocket`. `SetupWebSocketCallbacks` is reduced to the callbacks flag plus a ghost flag saying whether the current socket has its handlers bound.
- `HandleClosed`: it only builds a message that nothing uses, so it has no observable effect.
- Gzip inflation (`FCompression::UncompressMemory`, an engine call) is a function parameter `inflate`. It gives no bytes when inflation fails. The four-times size guess is part of what that function stands for.
- Randomness: `GenerateRandomConnectionId` receives its sixteen random bytes as a parameter.
- The clock: `HandleRawMessage` receives the arrival time as a parameter.
- Floating point: `ReadFloat`, `ReadDouble`, `WriteFloat`, `WriteDouble`, and `FTimeDuration::GetMillis`, `FromMillis` and `ToString`.
- Wall-clock and engine formatting: `FTimestamp::Now` and `FTimestamp::ToString`. An `FDateTime` appears only as its int64 tick count.
- Engine hashing (`GetTypeHash`), logging (`UE_LOG`) and the reader's destructor.
- `ReadPrimitiveArray` and `WritePrimitiveArray` are memcpy templates that are never instantiated. They are modelled only for bytes, through the byte-array reader and writer.
- The per-type optional reads and writes (`ReadOptionalByte`, `ReadOptionalInt32`, `ReadOptionalString`, `WriteOptionalByte`, `WriteOptionalString` and the rest) are modelled once, by `ReadOptional` and `WriteOptional` over the payload's decoder or encoder.
- `GetPosition`, `GetSize` and `GetData` are the `position` and `data` fields themselves.
- Engine glue is not part of this model: the tick registration of the network manager (`RegisterTick`, `UnregisterTick`, `Initialize`), the builder beyond the delegate binding, and `UStdbClientProxy`.
- `Run`'s connection wait and `ConnectWebSocket`'s 10-second timeout are not modelled as time. The handshake outcome parameter says whether the connection, an error or the timeout came first.
- BinaryReaders.BinaryReader.ReadBytes and every other read method: a read past the end fails the source's `checkf` and halts the program. The methods therefore require the bytes to be present, while the pure decoders return `None`.
- BinaryWriters.BinaryWriter.WriteString, WriteArray and WriteStringArray require counts below 2^31. The source casts the count to int32, and a larger count would be written truncated.
- Codec.StringRoundTrip, Codec.StringDecodes, Codec.StringArrayRoundTrip and every message round trip hold only for ASCII strings without '\0'. `ReadString` does not decode UTF-8, as `Codec.StringRoundTripFailsBeyondAscii` shows. `WriteString` stops at the first '\0', as `Codec.WriteStringStopsAtNul` shows, and `Codec.StringRoundTripUpToNul` states what is read back from any ASCII string: the text before its first '\0'. `ReadString` also drops zero bytes, as `Codec.ReadStringSkipsNul` shows.
- ByteUtils.ReadFU128FromBE, ByteUtils.ReadFU128FromLE, ByteUtils.ReadFU256FromBE and ByteUtils.ReadFU256FromLE require the byte count their `check` demands. The source aborts when the check fails, or reads out of bounds when checks are compiled out; the model replaces both with a precondition.
- Identities.FromLittleEndian, Identities.FromBigEndian and Identities.FromHexString require 32 bytes, or hex text giving 32 bytes, for the same reason: they pass the bytes to `ReadFU256FromLE` or `ReadFU256FromBE`, whose `check` aborts on any other count. The abort, or the out-of-bounds read without checks, is replaced by a precondition.
- TimeDurations.Add and TimeDurations.Sub require the result to fit in int64, because signed overflow is undefined in C++.
- Timestamps.ToDateTime requires the tick count to fit in int64, because signed overflow is undefined in C++.
- Timestamps.FromDateTime requires the tick count minus the epoch's to fit in int64, for the same reason.
- Timestamps.DateTimeRoundTrip requires the tick count to fit in int64.
- ClientBase.StdbClient.DecompressAndDeserialize, ProcessRawFrames and RunCycle require every frame to be readable, meaning short enough to give no buffer or holding a whole message at the start of its buffer. A truncated message would fail the reader's `checkf`.
- ClientBase.StdbClient.HandleProcessedMessage, FrameTick and NetworkManager.Manager.TickNetwork require decoded messages. The blank message queued for an empty frame would fail the payload's type check in the source.
- ClientBase.StdbClient.LegacySubscribe requires a socket to exist. With no socket, the source would call through a null `WS`.
- ClientBase.StdbClient.SendClientMessage requires a socket to exist, for the same reason: the source calls `WS->Send` without a check.
- ClientBase.StdbClient.SendQueuedMessages requires a socket whenever client messages are queued. For example, `Shutdown` drops the socket but leaves `bIsConnected` set, so a later `Connect` does not reconnect and the next pass would send through a null `WS`.
- ClientBase.StdbClient.RunCycle requires a socket after its connect step whenever client messages are queued, for the same reason.
- ClientBase.StdbClient.HandleRawMessage requires its handler to be bound on the current socket, since the socket is its only caller. A socket created while the callbacks flag is still set, after a handshake that failed or timed out, never gets the handler. `ClientBase.RetryAfterTimeoutIsDeaf` shows such a socket connecting with no frames reaching the client.
- The `FI256` order is stated against the lexicographic order the source uses. `Int256.LessIsNumericForLowerHalvesOfOneSign` and `Int256.LessIsNotNumeric` relate it to numeric order.
