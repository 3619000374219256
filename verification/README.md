# Verification of the vendored TLS/DTLS and protobuf code

Dafny models of the stateful C and C++ code under `Proverbs/Pods`, with proofs of what it is there for: messages that
come out of a lossy network in order, protobuf messages that survive the wire, two handshake machines that always agree
on the transcript, bytes that reach the wire once and in order. `dafny verify dfyconfig.toml` checks everything.

Each component has the same shape. A specification on values (datatypes and functions) follows the source branch by
branch, with its integer widths written out. The step-by-step code is then written as methods and classes over arrays
and fields and proved to compute that specification, and the theorems are lemmas about the specification. I/O, clocks,
keys and randomness are parameters: a run takes the outcome of every write, seal, lookup or signature from outside, and
a lemma holds for all of them.

## Components

**nanopb** (`PbTypes`, `PbVarint`, `PbCodec`, `PbMerge`, `PbRoundTrip`, `PbWire`, `PbOccurrences`, `PbLimits`,
`PbIterator`, `PbOutput`, `PbEncoder`, `PbInput`, `PbDecoder`, `PbNested`), as built here with PB_FIELD_32BIT.
Descriptors are a tree, a message is a sequence of cells (one for each slot of the struct, the members of a oneof
sharing one), streams are classes over a byte array. Main results: the round trip over whole descriptor trees; the bytes
are those of the Protocol Buffers encoding guide, which `PbWire` writes out by itself; merging, skipping and fields that
come more than once; whatever is decoded fits its struct; the exact required-field check; the sizing pass that always
agrees with the real one; and how the two varint decoders relate.

**DTLS handshake transport** (`DtlsWire`, `Reassembly`, `DtlsReceiver`, `DtlsSender`, `DtlsSendLive`, `DtlsNetwork`,
`DtlsWrap`, `DtlsAhead`, `DtlsCcs`, `ReplayWindow`), sections 4.1.2.6 and 4.2.2 to 4.2.4 of RFC 6347. The network is the
set of all records ever written: any of them may be delivered at any time, any number of times, or never. Main results:
what is handed out is a prefix of what was queued; a flight that gets through is readable; the fragments sent tile the
flight; a ChangeCipherSpec is kept until it is asked for and given out once; the sliding window is a set; no record
twice, and no record swallowed by another of its packet.

**TLS 1.0 to 1.2 handshake** (`TlsHandshake`, `TlsRuns`, `TlsChecks`, `TlsSends`, `TlsPair`, `TlsFinish`, `TlsDriver`,
`TlsConverse`), sections 7.3 and 7.4 of RFC 5246. Both machines, state by state, are run alone against any peer and
together over two channels. A Finished, a CertificateVerify and a ChannelID are values that record who made them and
over which transcript, so the cryptography is ideal: only the maker's transcript matches. Main results: against any
peer, a finished handshake has sent and read just what its negotiation allows, and nothing the peer vouches for without
the proof; transcripts and secrets agree at every check, honest peers never fail each other, never wait for each other
and can always finish, in an order that resumption fixes. `TlsDriver` is the imperative form, an object whose fields the
steps change, and `TlsConverse` carries the results to two such objects that talk to each other.

**TLS messages and write path** (`TlsMessages`, `SslBuffer`, `TlsWrite`, `TlsWriteRuns`, `TlsWriteFaults`,
`TlsWriteLive`, `TlsWriter`). Handshake messages cut into records and put together again, which is what lets the
handshake model treat a connection as a queue of messages; and sealed bytes on their way through buffer and pending
flight to a transport that takes any part of them or fails. Main results: the wire carries the sealed records in order,
every byte of application data once, and a transport that goes on taking bytes gets everything through.

**Smaller ones.** `Premaster`: the branch-free RSA padding check (section 7.2.2 of RFC 3447). `Refcount`: the
compare-and-swap reference count against the locked one. `CipherChoice`: the choice of a cipher under preference groups.

`Bytes` holds the bit arithmetic they share.

## Where the code falls short of its promise

Each entry names the member that gives the input or the run, and the one that says exactly when the promise holds.

- A seal that fails after another record went into the same packet is not undone: the packet is dropped, the position
  stays advanced, and the flight later counts as sent without that record (`DtlsSender.TornPacketLosesMessage`). The
  records sent tile the flight if and only if this never happens (`DtlsSender.FlightTiles`).
- On the TLS side a seal that fails behind a pending flight leaves the flight in the write buffer
  (`TlsWriteFaults.SealFailureStrands`). From then on writes and alerts fail and flushing reports success without
  writing a byte, until a new message is queued (`RefusedForGood`). A failed write can be retried if and only if nothing
  was left of the flight or no capacity was reserved (`FailedWriteIff`).
- The receiver's test for fragments too far in the future lets through a number exactly 7 ahead, which then has no slot
  and is fatal (`DtlsAhead.EighthIsFatal`; `DtlsNetwork.HonestFragmentRefused` has all cases in which an honest fragment
  is refused).
- The 16-bit message number wraps without a check: after 65536 messages the first one can be handed out again
  (`DtlsWrap.OneTooMany`, `PrefixIffNumbersLast`). The 16-bit epoch wraps likewise (`ReplayWindow.EpochWrapForgets`,
  `OnceIffEpochsLast`). A real handshake is far from either.
- The write buffer's 16-bit offset wraps when close to 64 KB are consumed piecemeal, and bytes are then read from the
  wrong place (`TlsWriteFaults.LostRun`; `SslBuffer.ConsumeIsExact` for one step). No transport can make that happen to
  a buffer if and only if its data ends at 2^16 or below (`TlsWrite.FlushNeverLosesIff`). So it never happens in a run
  in which each record and the flight before it leave 8 bytes below 2^16 (`TlsWriteRuns.RoomyRunIsOrdered`), nor where
  that holds of one record and all messages together (`SmallRunIsOrdered`).
- A retry of an application write with too short a buffer forgets how much was sent (`TlsWriteRuns.ShortRetryForgets`);
  with moving write buffers allowed, a later full retry seals bytes twice (`TlsWriteFaults.ShortRetryRepeats`). A
  shorter retry keeps every byte once if and only if it is no shorter than what was reported
  (`TlsWriteRuns.ShorterRetryIff`; `RetriesOnceIff` over a run), and longer ones always do (`RetriesOnce`).
- The 32-bit varint decoder accepts numbers beyond 32 bits, padded ones and minimal ones from 2^63 on
  (`PbVarint.TwoThatWrap`); `PbVarint.TrueIffWithin32` says on which bytes its result is the number that was encoded.
- A field with a tag of 2^29 or more is encoded but cannot be decoded (`PbRoundTrip.LargeTagRefused`), and so is a
  submessage or packed array of 4 GiB or more (`PrefixedRefused`). A message comes back if and only if nothing in it is
  of either kind (`PbRoundTrip.RoundTrip`).
- An empty protobuf message finds field number 0 in its own terminator, so a field that any other message skips is an
  error there (`PbMerge.EmptyMessageRefuses`, `SkippedIffUnknown`).
- A server that asks for a certificate only where there is no Channel ID decides that before it drops Channel ID for a
  cipher without ECDHE: every such full handshake ends with neither, and with one of the two if and only if that does
  not happen (`TlsChecks.OneOfTheTwoIff`).
- Without a final 0 among the group flags a shared cipher can be missed (`CipherChoice.UnterminatedGivesUp`; `Choose`
  says exactly when nothing is chosen).

## Model

| member | source | states |
|---|---|---|
| PbVarint.AtMostTenBytes | Proverbs/Pods/nanopb/pb_encode.c:574-594 | every 64-bit value takes at most ten bytes, the size of the scratch buffer |
| PbVarint.RoundTrip64 | Proverbs/Pods/nanopb/pb_encode.c:574-594 | the 64-bit decoder gives back every 64-bit value, and stops right behind its encoding |
| PbVarint.RoundTrip32 | Proverbs/Pods/nanopb/pb_decode.c:182-242 | the 32-bit decoder gives back every value below 2^32, and stops right behind its encoding |
| PbVarint.ZigZagRoundTrip | Proverbs/Pods/nanopb/pb_decode.c:1240-1252 | zigzag is undone over the whole int64 range; non-negative v goes to 2v, negative v to -2v-1 |
| PbVarint.DecodersAgree | Proverbs/Pods/nanopb/pb_decode.c:182-270 | on every input that both decoders accept, the 32-bit result is the 64-bit one modulo 2^32 and both stop at the same byte |
| PbVarint.WideRefused32 | Proverbs/Pods/nanopb/pb_decode.c:206-231 | minimal encodings of values in [2^32, 2^63) are refused by the 32-bit decoder |
| PbVarint.NegativeInt32Accepted | Proverbs/Pods/nanopb/pb_decode.c:206-231 | a negative int32 written as ten sign-extended bytes is accepted and cut to its low 32 bits |
| PbVarint.TrueIffWithin32 | Proverbs/Pods/nanopb/pb_decode.c:206-238 | for every input both decoders accept: the 64-bit value is an unsigned or sign-extended 32-bit number, so that the 32-bit result is the same number, if and only if at most five bytes were read, or nothing above bit 31 is set in them, or they are a negative int32 in all ten bytes |
| PbVarint.TwoThatWrap | Proverbs/Pods/nanopb/pb_decode.c:206-238 | two inputs outside that condition that are accepted all the same: a padded encoding of 7 * 2^32 reads as 0, and the minimal encoding of 2^63 + 2^31 as 2^31 |
| PbVarint.Stable64 | Proverbs/Pods/nanopb/pb_decode.c:250-270 | bytes behind a varint that decodes do not change the value |
| PbVarint.Stable32 | Proverbs/Pods/nanopb/pb_decode.c:182-242 | the same for the 32-bit decoder |
| PbMerge.LoopAppend | Proverbs/Pods/nanopb/pb_decode.c:919-997 | decoding a run of whole fields and then more input is decoding the run, and then the rest into its result with the required fields it met |
| PbMerge.UnknownFieldsAreSkipped | Proverbs/Pods/nanopb/pb_decode.c:316-326 | a well-formed field with an unknown tag other than zero, put between whole fields, never changes the result, success or failure |
| PbMerge.SkippedIffUnknown | Proverbs/Pods/nanopb/pb_decode.c:933-962 | a field of another schema is skipped, unless the message is empty and the field's number is 0: then decoding fails, since the number is found in the terminator |
| PbMerge.EmptyMessageRefuses | Proverbs/Pods/nanopb/pb_common.c:78-95 | the input that shows it: a fixed 32-bit value under number 0 makes decoding of an empty message fail |
| PbNested.NestedUnknownIsSkipped | Proverbs/Pods/nanopb/pb_decode.c:1463-1485 | an unknown field put into a submessage at any depth, the length prefixes around it adjusted, changes neither success nor result |
| PbMerge.ConcatenationMerges | Proverbs/Pods/nanopb/pb_decode.c:901-1049 | decoding a ++ b into a struct is decoding a and then b, whenever both succeed and a has no zero tag |
| PbMerge.RequiredCheckIsExact | Proverbs/Pods/nanopb/pb_decode.c:988-1046 | for fields in any order, decoding fails the required-field check if and only if one of the first 64 required fields did not occur; otherwise it gives the folded struct and reads everything |
| PbMerge.SeenIffMet | Proverbs/Pods/nanopb/pb_decode.c:988-993 | the bits set are complete exactly if no tracked required field was missed: the running index numbers required fields without clashes |
| PbMerge.SeenIsCarried | Proverbs/Pods/nanopb/pb_decode.c:919-997 | the bits already set play no part in the loop but are kept |
| PbTypes.DefaultsAt | Proverbs/Pods/nanopb/pb_decode.c:811-895 | after resetting a prefix of the fields, the slot of each of them holds that field's default, oneof members sharing one slot included |
| PbRoundTrip.RoundTrip | Proverbs/Pods/nanopb/pb_decode.c:1051-1063 | every well-formed descriptor tree, with 32-bit tags and sizes, and every typed message whose encoding stays below 2^63 bytes: encoding succeeds; if no field that is set, at any depth, has a tag of 2^29 or more, and no submessage or packed array that is set takes 4 GiB or more, decoding reads it all and gives the message back up to unset fields, and otherwise it fails |
| PbRoundTrip.SmallTagsRoundTrip | Proverbs/Pods/nanopb/pb_decode.c:1051-1063 | with all tags below 2^29, as the protobuf language has them, the round trip works whenever each length-prefixed part stays below 4 GiB |
| PbRoundTrip.LargeTagRefused | Proverbs/Pods/nanopb/pb_decode.c:293-314 | under every tag of 2^29 or more a message of one required integer is encoded, and decoding its encoding fails |
| PbRoundTrip.BelowFourGiBFits | Proverbs/Pods/nanopb/pb_decode.c:367-385 | a message whose whole encoding stays below 4 GiB has no part whose length does not fit |
| PbRoundTrip.PrefixedRefused | Proverbs/Pods/nanopb/pb_decode.c:182-242 | a length of 2^32 or more in front of a submessage or packed array is refused, though the encoder writes it |
| PbRoundTrip.AtField | Proverbs/Pods/nanopb/pb_decode.c:293-314 | a field's tag word leads the decoder to that field; a tag of 2^29 or more does not fit 32 bits and is refused |
| PbRoundTrip.CanonAgrees | Proverbs/Pods/nanopb/pb_encode.c:215-303 | what comes back agrees with the message field by field: set fields are equal, proto3 defaults left out come back as defaults, an unset oneof member stays unset |
| PbRoundTrip.MsgRoundTrip | Proverbs/Pods/nanopb/pb_decode.c:901-1049 | the decoder run on the fields' encodings in descriptor order rebuilds the message from defaults and passes the required-field check, or fails if a tag or a length that is set does not fit |
| PbRoundTrip.TotalFrom | Proverbs/Pods/nanopb/pb_encode.c:494-516 | encoding a typed message never fails for want of a legal value |
| PbRoundTrip.ScalarRoundTrip | Proverbs/Pods/nanopb/pb_decode.c:1289-1461 | each scalar type's encoder is undone by its decoder in front of any further input: sign extension, zigzag, fixed widths, bytes, NUL-terminated strings, fixed-length bytes |
| PbRoundTrip.SignedRoundTrip | Proverbs/Pods/nanopb/pb_encode.c:734-755 | a signed value of 1, 2, 4 or 8 bytes survives the cast to uint64, the varint and the decoder's range check |
| PbRoundTrip.FixedRoundTrip | Proverbs/Pods/nanopb/pb_encode.c:607-632 | a little-endian word of n bytes reads back as itself |
| PbRoundTrip.ValRoundTrip | Proverbs/Pods/nanopb/pb_decode.c:1463-1485 | any value, also a submessage through its length prefix and substream, reads back as its canonical form |
| PbRoundTrip.PackedRoundTrip | Proverbs/Pods/nanopb/pb_decode.c:419-447 | a packed run is appended to the array item by item and ends exactly at the end of its substream, or fails where there is no room for all of it |
| PbRoundTrip.ArrayRoundTrip | Proverbs/Pods/nanopb/pb_encode.c:126-211 | a repeated field, packed or one tag an item, comes back with the same items in order; an empty one leaves the slot alone |
| PbRoundTrip.SingleRoundTrip | Proverbs/Pods/nanopb/pb_decode.c:401-475 | a required, optional, has-less or oneof field comes back in its slot and is marked as seen |
| PbRoundTrip.FieldRoundTrip | Proverbs/Pods/nanopb/pb_encode.c:307-392 | a field's encoding, or its absence, takes the decoder from the first i fields restored to i + 1 |
| PbWire.ReadsWithoutDescriptor | Proverbs/Pods/nanopb/pb_encode.c:494-516 | the encoding of every typed message is the records the protobuf encoding guide asks for, written out without the encoder's own tables: field number and wire type 0, 1, 2 or 5 by kind, two's complement or zigzag, one packed record for an array of scalars; read without any descriptor it gives them all back in order |
| PbWire.WireParses | Proverbs/Pods/nanopb/pb_encode.c:634-664 | a list of records is read back whatever they are about: no two lists have the same bytes |
| PbWire.VarintDigits | Proverbs/Pods/nanopb/pb_encode.c:574-594 | a varint is the base-128 digits, lowest first, with every byte but the last marked |
| PbWire.LittleEndianDigits | Proverbs/Pods/nanopb/pb_encode.c:607-632 | a fixed word is the base-256 digits, lowest first |
| PbWire.TextStopsAtNul | Proverbs/Pods/nanopb/pb_encode.c:831-863 | a text goes out up to its first NUL |
| PbWire.StrangerSkipsMessage | Proverbs/Pods/nanopb/pb_decode.c:316-326 | a reader with another schema that has none of the fields passes over the whole encoding to the byte, and its struct stays as it was |
| PbWire.OtherTypesRefused | Proverbs/Pods/nanopb/pb_decode.c:316-326 | under an unknown number the wire types 3, 4, 6 and 7 make decoding fail, whatever follows |
| PbOccurrences.PiecesAppend | Proverbs/Pods/nanopb/pb_decode.c:417-460 | an array may come in any mixture of single items and packed runs, behind items that are there: all are appended in order as long as the array has room, and beyond that decoding fails |
| PbOccurrences.PackedOrNot | Proverbs/Pods/nanopb/pb_decode.c:417-460 | packed or one key an item, an array of scalars decodes to the same |
| PbOccurrences.LastOneStays | Proverbs/Pods/nanopb/pb_decode.c:401-475 | of a scalar, or a member of a oneof, the last occurrence replaces what was there, whatever it was |
| PbOccurrences.SubmessagesMerge | Proverbs/Pods/nanopb/pb_decode.c:401-475 | a submessage that comes in two parts is decoded as the one that has both parts in it |
| PbOccurrences.AbsentIsDefault | Proverbs/Pods/nanopb/pb_decode.c:812-899 | a field that does not occur comes out as its declared default and not marked as set, whatever else occurs |
| PbLimits.DecodedFits | Proverbs/Pods/nanopb/pb_decode.c:1051-1063 | whatever bytes arrive, a struct that is decoded fits its C types: no array, buffer or text is overfull at any depth, and every number is in the range of its member |
| PbLimits.SignedIsExact | Proverbs/Pods/nanopb/pb_decode.c:1289-1324 | a signed varint is accepted exactly if the member can hold the two's complement number in the 64 bits read, or in their lower 32 where the member is shorter than 8 bytes |
| PbLimits.OthersAreExact | Proverbs/Pods/nanopb/pb_decode.c:1326-1372 | an unsigned varint is accepted exactly if it is below 2 to the member's bits, a zigzag one exactly if the member can hold the number meant |
| PbLimits.PrefixedIsExact | Proverbs/Pods/nanopb/pb_decode.c:1391-1461 | bytes and text are accepted exactly if the member has room, counting the length field or the NUL; fixed-length bytes exactly with their length, or empty for zeros |
| PbLimits.LeftOutIffBlank | Proverbs/Pods/nanopb/pb_encode.c:215-303 | a proto3 field is left out exactly if it is 0, empty, or a message that would itself go out as nothing |
| PbIterator.FieldIter.Begin | Proverbs/Pods/nanopb/pb_common.c:8-18 | the iterator starts at the first field with a required index that counts no fields |
| PbIterator.FieldIter.Next | Proverbs/Pods/nanopb/pb_common.c:20-76 | one field on, wrapping to the first, false exactly at the wrap; the required index stays the number of required fields before the position |
| PbIterator.FieldIter.Find | Proverbs/Pods/nanopb/pb_common.c:78-95 | finds a field with the tag, from anywhere and around the end, exactly if the descriptor has one (an empty descriptor's terminator counts as tag 0) |
| PbOutput.OStream.Sizing | Proverbs/Pods/nanopb/pb_encode.c:533-542 | a counting stream has nothing before it, nothing behind it and the largest size as room |
| PbOutput.OStream.Window | Proverbs/Pods/nanopb/pb_encode.c:84-99 | a stream on part of a buffer leaves what lies before and behind it |
| PbOutput.OStream.Write | Proverbs/Pods/nanopb/pb_encode.c:101-119 | writes all the bytes or none, on a real and on a counting stream alike: refused exactly if the room is too small, and a counting stream counts what a real one would take |
| PbOutput.OStream.BufWrite | Proverbs/Pods/nanopb/pb_encode.c:72-82 | the bytes go where the stream stands and nothing else in the buffer changes |
| PbOutput.EncodeVarint | Proverbs/Pods/nanopb/pb_encode.c:574-594 | writes the minimal encoding, or fails for want of room |
| PbOutput.VarintBytes | Proverbs/Pods/nanopb/pb_encode.c:577-593 | the loop over the ten-byte scratch buffer produces the minimal encoding and stays inside it |
| PbOutput.Compose | Proverbs/Pods/nanopb/pb_encode.c:494-516 | two writes in a row emit the concatenation, succeed together exactly if it fits, and otherwise leave a prefix of it |
| PbEncoder.EncodeTag | Proverbs/Pods/nanopb/pb_encode.c:635-639 | writes tag * 8 + wire type as a varint |
| PbEncoder.EncodeString | Proverbs/Pods/nanopb/pb_encode.c:674-680 | writes the length and then the bytes |
| PbEncoder.EncodeFixed | Proverbs/Pods/nanopb/pb_encode.c:607-632 | writes the little-endian bytes |
| PbEncoder.EncodeScalar | Proverbs/Pods/nanopb/pb_encode.c:734-868 | each type's encoder emits its wire form, or fails where the value does not fit its field |
| PbEncoder.EncodeSubmessage | Proverbs/Pods/nanopb/pb_encode.c:682-730 | the sizing pass and the real pass agree: what is emitted is the exact length of the submessage followed by its bytes, on real and counting streams |
| PbEncoder.EncodeInWindow | Proverbs/Pods/nanopb/pb_encode.c:705-729 | the substream given exactly the counted size takes the whole submessage |
| PbEncoder.CloseWindow | Proverbs/Pods/nanopb/pb_encode.c:717-729 | the parent takes over where the full substream stopped, so the size-changed error is never reported |
| PbEncoder.WindowFilled | Proverbs/Pods/nanopb/pb_encode.c:717-729 | writing a body into a window of its own size succeeds and fills it to the last byte |
| PbEncoder.EncodeTagged | Proverbs/Pods/nanopb/pb_encode.c:641-672 | a field's tag with its wire type, then its value |
| PbEncoder.PackedSize | Proverbs/Pods/nanopb/pb_encode.c:145-165 | the length of a packed array, multiplied out for fixed sizes and counted for the others, is the number of bytes its items take; fails exactly if an item cannot be encoded or the sum overflows |
| PbEncoder.EncodePacked | Proverbs/Pods/nanopb/pb_encode.c:139-181 | the packed branch emits the true length and then the items |
| PbEncoder.EncodeArray | Proverbs/Pods/nanopb/pb_encode.c:126-211 | an array emits its packed or tagged form; too many items for the array make it fail |
| PbEncoder.CheckDefault | Proverbs/Pods/nanopb/pb_encode.c:215-303 | true exactly if the value is the proto3 default, through nested submessages |
| PbEncoder.EncodeBasicField | Proverbs/Pods/nanopb/pb_encode.c:307-392 | a field emits its encoding or nothing: has flag, count, which and default decide |
| PbEncoder.EncodeMessage | Proverbs/Pods/nanopb/pb_encode.c:494-516 | the loop over the fields emits the message; on a counting stream it counts exactly those bytes |
| PbEncoder.EncodedSize | Proverbs/Pods/nanopb/pb_encode.c:533-542 | the size reported is the length of the encoding, and it fails exactly if that does not exist or fit |
| PbInput.IStream.Window | Proverbs/Pods/nanopb/pb_decode.c:154-176 | a stream over part of a buffer holds exactly these bytes |
| PbInput.IStream.ReadByte | Proverbs/Pods/nanopb/pb_decode.c:136-152 | takes the next byte, fails exactly at the end |
| PbInput.IStream.Read | Proverbs/Pods/nanopb/pb_decode.c:100-132 | takes exactly count bytes or fails and takes none |
| PbInput.DecodeVarint32 | Proverbs/Pods/nanopb/pb_decode.c:182-242 | decodes as the specified loop does, 8-bit position counter included; the end-of-input flag is set exactly if nothing was left |
| PbInput.DecodeVarint64 | Proverbs/Pods/nanopb/pb_decode.c:250-270 | decodes as the specified loop does, failing on truncation and past 64 bits |
| PbInput.SkipField | Proverbs/Pods/nanopb/pb_decode.c:316-326 | skips one value of each wire type and fails on unknown types and truncation |
| PbInput.MakeSubstream | Proverbs/Pods/nanopb/pb_decode.c:367-380 | the substream holds the next size bytes and the stream what lies behind them; fails if there are fewer |
| PbInput.CloseSubstream | Proverbs/Pods/nanopb/pb_decode.c:382-395 | what is left of the substream is skipped, and the stream goes on right behind it |
| PbInput.DecodeScalar | Proverbs/Pods/nanopb/pb_decode.c:1289-1508 | each type's decoder, with its range checks, gives the specified value and leaves the specified rest |
| PbDecoder.MarkSeen | Proverbs/Pods/nanopb/pb_decode.c:988-993 | sets one bit in one of the two words and no other |
| PbDecoder.CheckSeen | Proverbs/Pods/nanopb/pb_decode.c:1027-1045 | the comparison of whole words and a masked last one is true exactly if every one of the n bits is set |
| PbDecoder.SetToDefaults | Proverbs/Pods/nanopb/pb_decode.c:884-895 | builds the default struct, submessages recursively |
| PbDecoder.CountRequired | Proverbs/Pods/nanopb/pb_decode.c:1012-1022 | walking on from any position to the wrap gives the number of required fields |
| PbDecoder.DecodeSubmessage | Proverbs/Pods/nanopb/pb_decode.c:1463-1485 | repeated submessages start from defaults, others merge into what is there |
| PbDecoder.DecodePackedRun | Proverbs/Pods/nanopb/pb_decode.c:419-447 | items until the substream ends; a full array or a broken item fails |
| PbDecoder.DecodeField | Proverbs/Pods/nanopb/pb_decode.c:401-475 | stores the value, the has flag, the count or which, by the field's kind; switching a oneof to a submessage resets it first |
| PbDecoder.DecodeOneField | Proverbs/Pods/nanopb/pb_decode.c:919-997 | one turn: an unknown tag is skipped, a known one decoded and marked; it is the specified step |
| PbDecoder.DecodeFields | Proverbs/Pods/nanopb/pb_decode.c:919-997 | the loop over the input gives the specified struct and bits, ending at the end of input or a zero tag |
| PbDecoder.DecodeMessage | Proverbs/Pods/nanopb/pb_decode.c:901-1049 | decoding into a struct gives what the specification gives and fails when it fails |
| PbDecoder.DecodeFresh | Proverbs/Pods/nanopb/pb_decode.c:1051-1063 | the same from defaults |
| DtlsWire.FragmentRoundTrip | Proverbs/Pods/BoringSSL-GRPC/ssl/d1_both.cc:459-473 | a fragment header and body are parsed back as written, whatever follows |
| DtlsWire.ParsedIsWritten | Proverbs/Pods/BoringSSL-GRPC/ssl/d1_both.cc:459-473 | what is parsed is exactly what was written: no other bytes give this fragment |
| Reassembly.RangeBits | Proverbs/Pods/BoringSSL-GRPC/ssl/d1_both.cc:203-205 | the byte mask for [start, end) has exactly these bits |
| Reassembly.MarkedBits | Proverbs/Pods/BoringSSL-GRPC/ssl/d1_both.cc:227-237 | after marking, a bit is set if and only if it was set before or lies in the range, across first, middle and last byte |
| Reassembly.HmFragment.New | Proverbs/Pods/BoringSSL-GRPC/ssl/d1_both.cc:152-199 | a new fragment has no bytes; an empty message needs no mask and is complete at once |
| Reassembly.HmFragment.CompleteIffFreed | Proverbs/Pods/BoringSSL-GRPC/ssl/d1_both.cc:239-251 | the mask is gone exactly when every byte of the message has arrived |
| Reassembly.HmFragment.CopyBody | Proverbs/Pods/BoringSSL-GRPC/ssl/d1_both.cc:399-401 | the body is copied to its place and nothing else in the message changes |
| Reassembly.HmFragment.Mark | Proverbs/Pods/BoringSSL-GRPC/ssl/d1_both.cc:211-251 | the bytes known to have arrived grow by exactly the range, if it is in bounds, and the mask is freed when they are all there |
| Reassembly.SetBits | Proverbs/Pods/BoringSSL-GRPC/ssl/d1_both.cc:227-237 | the two-case loop ors the right mask into each byte |
| Reassembly.IsFull | Proverbs/Pods/BoringSSL-GRPC/ssl/d1_both.cc:239-247 | whole bytes and the last partial byte are compared correctly: true exactly if every byte of the message is marked |
| DtlsReceiver.LookupMatches | Proverbs/Pods/BoringSSL-GRPC/ssl/d1_both.cc:265-295 | a slot that is found was made for this very sequence number, so the assertion on it cannot fail |
| DtlsReceiver.OpenKeepsRing | Proverbs/Pods/BoringSSL-GRPC/ssl/d1_both.cc:297-406 | whatever arrives, each live slot holds the one sequence number in [next, next + 7) with its residue |
| DtlsReceiver.AdvanceKeepsRing | Proverbs/Pods/BoringSSL-GRPC/ssl/d1_both.cc:426-438 | handing out a message keeps that, also where the 16-bit number wraps |
| DtlsReceiver.OpenKeepsCurrent | Proverbs/Pods/BoringSSL-GRPC/ssl/d1_both.cc:297-406 | nothing that arrives later changes a complete message that waits |
| DtlsReceiver.AcceptedIsFragments | Proverbs/Pods/BoringSSL-GRPC/ssl/d1_both.cc:350-406 | a handshake record is accepted only if it is whole fragments and nothing else, each within its message and no message over the limit |
| DtlsReceiver.OtherTypesRefused | Proverbs/Pods/BoringSSL-GRPC/ssl/d1_both.cc:308-348 | a record of any type but handshake and ChangeCipherSpec changes nothing: application data is dropped once there is a cipher, and all else is an error |
| DtlsReceiver.Receiver.GetIncoming | Proverbs/Pods/BoringSSL-GRPC/ssl/d1_both.cc:265-295 | finds or makes the slot; fails outside the window and when type or length disagree |
| DtlsReceiver.Receiver.AbsorbFragment | Proverbs/Pods/BoringSSL-GRPC/ssl/d1_both.cc:352-403 | one fragment: range, length and epoch checks, old and far ones dropped, complete ones left alone, others copied and marked |
| DtlsReceiver.Receiver.OpenHandshake | Proverbs/Pods/BoringSSL-GRPC/ssl/d1_both.cc:297-406 | a record of any type and payload has the specified effect and result; fragments before a bad one stay absorbed |
| DtlsReceiver.Receiver.GetMessage | Proverbs/Pods/BoringSSL-GRPC/ssl/d1_both.cc:408-424 | gives the current message exactly if it is complete |
| DtlsReceiver.Receiver.NextMessage | Proverbs/Pods/BoringSSL-GRPC/ssl/d1_both.cc:426-438 | drops the current slot and moves on by one, modulo 2^16 |
| DtlsReceiver.Receiver.HasUnprocessed | Proverbs/Pods/BoringSSL-GRPC/ssl/d1_both.cc:440-457 | true exactly if something is held beyond the message handed out, or a ChangeCipherSpec |
| DtlsReceiver.Receiver.SetReadState | Proverbs/Pods/BoringSSL-GRPC/ssl/dtls_method.cc:81-95 | refuses with unprocessed data, otherwise steps the 16-bit epoch |
| DtlsReceiver.Receiver.OpenChangeCipherSpec | Proverbs/Pods/BoringSSL-GRPC/ssl/d1_both.cc:475-490 | takes the pending ChangeCipherSpec, or reads a record for one, as specified; DtlsCcs says when it succeeds |
| DtlsCcs.CcsSucceedsIff | Proverbs/Pods/BoringSSL-GRPC/ssl/d1_both.cc:475-490 | asking for a ChangeCipherSpec succeeds if and only if one is pending or the record is one: type 20, the one byte 1, not encrypted; afterwards none is pending |
| DtlsCcs.PendingIsOwed | Proverbs/Pods/BoringSSL-GRPC/ssl/d1_both.cc:320-338 | over any calls, one is pending exactly if one came since the last was given out |
| DtlsCcs.PendingBlocksReadState | Proverbs/Pods/BoringSSL-GRPC/ssl/dtls_method.cc:81-95 | while one is pending the read state does not change, and asking for it succeeds whatever record comes along |
| DtlsCcs.ReadStateIff | Proverbs/Pods/BoringSSL-GRPC/ssl/d1_both.cc:440-457 | the read state changes if and only if no ChangeCipherSpec is pending and nothing is left of the ring once the message being read is dropped: no fragment from before is carried into the new epoch |
| DtlsCcs.NoneGivenTwice | Proverbs/Pods/BoringSSL-GRPC/ssl/d1_both.cc:475-490 | over any calls, no more are given out than came, and of those that come while one is pending only one is |
| DtlsCcs.NoneMadeUp | Proverbs/Pods/BoringSSL-GRPC/ssl/d1_both.cc:320-338 | over the network, where none was queued none is ever taken, whatever is sent, lost, repeated and delivered |
| DtlsCcs.CcsArrives | Proverbs/Pods/BoringSSL-GRPC/ssl/d1_both.cc:320-338 | one that gets through before the cipher changes waits until it is taken, whatever comes in between |
| DtlsSender.SealMessageTiles | Proverbs/Pods/BoringSSL-GRPC/ssl/d1_both.cc:644-734 | a seal makes exactly the next record of the tiling, right in every header and body byte, and it fits |
| DtlsSender.PacketTiles | Proverbs/Pods/BoringSSL-GRPC/ssl/d1_both.cc:739-780 | the records of one packet fit it and tile from the old to the new position |
| DtlsSender.PacketProgress | Proverbs/Pods/BoringSSL-GRPC/ssl/d1_both.cc:739-780 | (messages left, body bytes left) falls lexicographically with every packet |
| DtlsSender.SendTiles | Proverbs/Pods/BoringSSL-GRPC/ssl/d1_both.cc:782-827 | one call, whatever BIO refuses: its packets fit the MTU and go on exactly where the sender was, unless a packet was torn, and then a gap is left |
| DtlsSender.FlightTiles | Proverbs/Pods/BoringSSL-GRPC/ssl/d1_both.cc:782-845 | over every run of calls the records BIO took tile the flight up to the sender's position if and only if no packet was torn by a failing seal |
| DtlsSender.TornPacketLosesMessage | Proverbs/Pods/BoringSSL-GRPC/ssl/d1_both.cc:739-780 | the last flight of a handshake: if the seal of the Finished fails after the key exchange message and the ChangeCipherSpec went into the same packet, the next call sends the Finished alone and the flight counts as sent |
| DtlsSender.TilesCoverBody | Proverbs/Pods/BoringSSL-GRPC/ssl/d1_both.cc:644-734 | records that tile cover each body from 0 on, without gap or overlap |
| DtlsSender.TilesCoverCcs | Proverbs/Pods/BoringSSL-GRPC/ssl/d1_both.cc:661-677 | a ChangeCipherSpec goes exactly once, when the sender passes it |
| DtlsSender.TilesInOrder | Proverbs/Pods/BoringSSL-GRPC/ssl/d1_both.cc:739-780 | records come in the order of their messages |
| DtlsSender.SentFlightIsWhole | Proverbs/Pods/BoringSSL-GRPC/ssl/d1_both.cc:782-827 | a flight sent to its end with no torn packet is on the wire whole: every body in full, every ChangeCipherSpec once |
| DtlsSendLive.FlightGetsThrough | Proverbs/Pods/BoringSSL-GRPC/ssl/d1_both.cc:782-827 | with seals that work, packets that are taken and an MTU that holds one byte of a message, however little else, as many packets as there are bytes and messages left send the flight, and none is torn |
| DtlsSendLive.FlightSentIff | Proverbs/Pods/BoringSSL-GRPC/ssl/d1_both.cc:782-827 | a flight counts as sent if and only if the connection is open, nothing failed, every message has been passed and the transport's own flush succeeds; a closed connection sends nothing and stays where it was |
| DtlsSender.Sender.Clear | Proverbs/Pods/BoringSSL-GRPC/ssl/d1_both.cc:500-509 | the queue is emptied and the position reset |
| DtlsSender.Sender.Add | Proverbs/Pods/BoringSSL-GRPC/ssl/d1_both.cc:555-594 | clears a completed flight, fails beyond 7 messages, numbers all but ChangeCipherSpec |
| DtlsSender.Sender.SealNextMessage | Proverbs/Pods/BoringSSL-GRPC/ssl/d1_both.cc:644-734 | one record as specified; the position moves only on progress, and the fixed buffer is never too small |
| DtlsSender.Sender.SealNextPacket | Proverbs/Pods/BoringSSL-GRPC/ssl/d1_both.cc:739-780 | as many records as fit; fails with an error or with no progress |
| DtlsSender.Sender.SendFlight | Proverbs/Pods/BoringSSL-GRPC/ssl/d1_both.cc:782-827 | packets until the flight is out; a refused packet restores the position, and the loop ends |
| DtlsSender.Sender.FlushFlight | Proverbs/Pods/BoringSSL-GRPC/ssl/d1_both.cc:829-834 | marks the flight complete and sends from where it was |
| DtlsSender.Sender.Retransmit | Proverbs/Pods/BoringSSL-GRPC/ssl/d1_both.cc:836-845 | sends from the start again |
| DtlsSender.Sender.SetWriteState | Proverbs/Pods/BoringSSL-GRPC/ssl/dtls_method.cc:97-107 | steps the epoch and keeps the previous keys |
| DtlsNetwork.SendIsHonest | Proverbs/Pods/BoringSSL-GRPC/ssl/d1_both.cc:644-827 | every record ever written is a slice of a queued message or a ChangeCipherSpec, torn packets included |
| DtlsNetwork.DeliverKeepsSlots | Proverbs/Pods/BoringSSL-GRPC/ssl/d1_both.cc:297-406 | delivering such a record, at any time and any number of times, leaves only true bytes in the slots |
| DtlsNetwork.DoKeeps | Proverbs/Pods/BoringSSL-GRPC/ssl/d1_both.cc:297-438 | every step of sender, network and receiver keeps the end-to-end invariant while numbers last |
| DtlsNetwork.EndToEnd | Proverbs/Pods/BoringSSL-GRPC/ssl/d1_both.cc:297-438 | for any loss, duplication, reordering, MTUs, refused writes, torn packets, retransmissions and epochs, the messages handed out are a prefix of those queued, equal in type and body, as long as fewer than 65536 are queued |
| DtlsNetwork.HonestFragmentRefused | Proverbs/Pods/BoringSSL-GRPC/ssl/d1_both.cc:365-390 | an honest fragment is an error in exactly three cases, one of them a number exactly 7 ahead, which passes the too-far test and finds no slot |
| DtlsAhead.EighthIsFatal | Proverbs/Pods/BoringSSL-GRPC/ssl/d1_both.cc:380-390 | a run from the start in which the eighth message arrives before the first: it is a fatal error, while the seventh would be kept and the ninth dropped |
| DtlsNetwork.WrapRepeatsFirst | Proverbs/Pods/BoringSSL-GRPC/ssl/d1_both.cc:426-438 | where the 16-bit number wraps, the first message delivered again is handed out again |
| DtlsNetwork.CoveredMessageArrives | Proverbs/Pods/BoringSSL-GRPC/ssl/d1_both.cc:297-424 | once records delivered while the receiver takes them cover every byte of a message, it can be read or was read, whatever comes in between, in any epoch: a number less than 7 ahead is taken, and in the encrypted epoch the current one |
| DtlsNetwork.FlightArrives | Proverbs/Pods/BoringSSL-GRPC/ssl/d1_both.cc:782-827 | if every record of an untorn flight gets through at least once while its message is taken, in any order and across changes of epoch, each of its messages, also the Finished, can be read or was read |
| DtlsNetwork.FlightArrivesInOneEpoch | Proverbs/Pods/BoringSSL-GRPC/ssl/d1_both.cc:782-827 | the same from the state at the start: for a message inside the window, or the current one in the encrypted epoch, it is enough that each record is delivered once in a run without a change of epoch |
| DtlsWrap.OneTooMany | Proverbs/Pods/BoringSSL-GRPC/ssl/d1_both.cc:426-438 | a reachable run of 65536 messages that hands out 65537 |
| DtlsWrap.PrefixIffNumbersLast | Proverbs/Pods/BoringSSL-GRPC/ssl/d1_both.cc:297-438 | that every run hands out a prefix holds for runs of up to N messages if and only if N < 65536 |
| ReplayWindow.DiscardIffSeenOrStale | Proverbs/Pods/BoringSSL-GRPC/ssl/dtls_record.cc:140-150 | a number is dropped if and only if it was recorded or lies 64 or more below the highest |
| ReplayWindow.RecordTells | Proverbs/Pods/BoringSSL-GRPC/ssl/dtls_record.cc:155-175 | recording keeps the map telling exactly what was seen among the last 64 numbers, also when it shifts out at the top |
| ReplayWindow.FailedOpenChangesNothing | Proverbs/Pods/BoringSSL-GRPC/ssl/dtls_record.cc:177-272 | a record that is dropped or does not open leaves the window alone; an accepted one was fresh |
| ReplayWindow.NumberHasEpoch | Proverbs/Pods/BoringSSL-GRPC/ssl/dtls_record.cc:209-232 | the top 16 bits of an accepted number are the epoch on the record |
| ReplayWindow.WindowOfRun | Proverbs/Pods/BoringSSL-GRPC/ssl/dtls_record.cc:140-272 | after every run from the start, a number is dropped if and only if it was accepted since the read state was last set, or one at least 64 higher was |
| ReplayWindow.NoRecordTwice | Proverbs/Pods/BoringSSL-GRPC/ssl/dtls_record.cc:177-272 | in every run a number is accepted twice only under different read states whose epochs coincide modulo 2^16 |
| ReplayWindow.EpochWrapForgets | Proverbs/Pods/BoringSSL-GRPC/ssl/dtls_method.cc:81-95 | after exactly 65536 changes of read state the same bytes are accepted again |
| ReplayWindow.OnceIffEpochsLast | Proverbs/Pods/BoringSSL-GRPC/ssl/dtls_method.cc:81-95 | that no record is ever accepted twice holds for runs of up to N changes of read state if and only if N < 65536 |
| ReplayWindow.RecordStandsAlone | Proverbs/Pods/BoringSSL-GRPC/ssl/dtls_record.cc:177-272 | what comes of a record does not depend on what follows it in the packet, and no more than the record is consumed, dropped or not; a wrong version or a length over the limit drops the rest of the packet |
| ReplayWindow.AcceptedIff | Proverbs/Pods/BoringSSL-GRPC/ssl/dtls_record.cc:177-272 | a record at the head of a packet is accepted if and only if its length, version, epoch and number are right, it opens, and to no more than 16384 bytes; it then counts under its number, as an alert exactly if its type is 21 |
| ReplayWindow.AcceptedAfterRun | Proverbs/Pods/BoringSSL-GRPC/ssl/dtls_record.cc:177-272 | the same after every run from the start, in terms of the run: the epoch is the number of changes modulo 2^16, and neither this number nor one at least 64 higher was accepted since the last change |
| ReplayWindow.PacketIsItsRecords | Proverbs/Pods/BoringSSL-GRPC/ssl/dtls_record.cc:177-272 | the records of one packet fare as in packets of their own: a replay, a forgery or another epoch's record takes nothing with it |
| ReplayWindow.ToU64 | Proverbs/Pods/BoringSSL-GRPC/ssl/dtls_record.cc:128-136 | the shift-and-or loop gives the big-endian value of eight bytes |
| ReplayWindow.Reader.IsStale | Proverbs/Pods/BoringSSL-GRPC/ssl/dtls_record.cc:140-150 | decides as specified on the number's bytes |
| ReplayWindow.Reader.RecordNumber | Proverbs/Pods/BoringSSL-GRPC/ssl/dtls_record.cc:155-175 | updates window and maximum as specified and nothing else |
| ReplayWindow.Reader.OpenRecord | Proverbs/Pods/BoringSSL-GRPC/ssl/dtls_record.cc:177-272 | result, bytes consumed and new window for every packet and every outcome of the AEAD |
| ReplayWindow.Reader.SetReadState | Proverbs/Pods/BoringSSL-GRPC/ssl/dtls_method.cc:81-95 | the epoch steps modulo 2^16 and the window is cleared |
| TlsRuns.StepMovesOrWaits | Proverbs/Pods/BoringSSL-GRPC/ssl/handshake.cc:491-628 | a step that has to wait changes nothing but the wait, and every other step makes a measure on (resumed, state) fall: no run loops, and a re-entered handler starts from the same state |
| TlsRuns.FinishedRunIsOrdered | Proverbs/Pods/BoringSSL-GRPC/ssl/handshake_server.cc:1439-1509 | against any peer, a finished run changed its write cipher, sent one Finished, changed its read cipher and checked one Finished, each Finished right after its cipher change, and resumption decides who is first |
| TlsRuns.BufferIsThere | Proverbs/Pods/BoringSSL-GRPC/ssl/handshake_server.cc:1336-1360 | where a CertificateVerify is signed or checked, the handshake buffer the source reads unchecked is there and holds the whole transcript |
| TlsRuns.StepIsFaithful | Proverbs/Pods/BoringSSL-GRPC/ssl/handshake.cc:431-476 | the cipher changes and Finished messages a side queued are exactly those its run recorded |
| TlsRuns.OneOwnFinished | Proverbs/Pods/BoringSSL-GRPC/ssl/handshake.cc:431-476 | a finished run queued one ChangeCipherSpec, then one Finished, and nothing else of the kind |
| TlsRuns.TurnHeeds | Proverbs/Pods/BoringSSL-GRPC/ssl/handshake.cc:491-628 | a turn takes nothing from what arrived, or the next item, and records just the cipher change or Finished that this item is |
| TlsRuns.OnePeerFinished | Proverbs/Pods/BoringSSL-GRPC/ssl/handshake.cc:380-429 | a finished run read one ChangeCipherSpec, then one message of type Finished, and nothing else of the kind, whatever arrived; that it was checked is TlsChecks.PeerIsVouched |
| TlsChecks.OnlyVouchedIsRead | Proverbs/Pods/BoringSSL-GRPC/ssl/handshake.cc:380-429 | against any peer: items are read in the order of arrival, and a Finished, a CertificateVerify or a ChannelID is read only if the other side made it over every message this side had queued or read before it, in order; a client reads no empty chain of certificates and no ServerHelloDone with a body |
| TlsChecks.FinishedReadsAreLegal | Proverbs/Pods/BoringSSL-GRPC/ssl/handshake.cc:491-628 | a finished handshake has read exactly the messages its negotiation asks for, in their order, whatever the peer sent; only an announced CertificateStatus and a plain PSK server's ServerKeyExchange may be missing |
| TlsChecks.PeerIsVouched | Proverbs/Pods/BoringSSL-GRPC/ssl/handshake.cc:380-429 | no handshake ends without a Finished made by the other side over this side's whole conversation up to it, and a server that took a client certificate or negotiated Channel ID has read a CertificateVerify or a ChannelID made likewise |
| TlsChecks.ServerGetsWhatItAsks | Proverbs/Pods/BoringSSL-GRPC/ssl/handshake_server.cc:608-760 | a finished server has read a Certificate if and only if it is set to verify its peer, in a full handshake with a cipher that authenticates by certificate, and would not rather have the Channel ID it supports; and a ChannelID that is vouched for if and only if it supports one, its cipher is ECDHE, and a resumed session has its original handshake on record |
| TlsChecks.OneOfTheTwoIff | Proverbs/Pods/BoringSSL-GRPC/ssl/handshake_server.cc:637-705 | a server that wants a certificate or, instead, a Channel ID gets one of the two in a full handshake if and only if Channel ID is not supported or the cipher is ECDHE |
| TlsSends.FinishedSendsAreLegal | Proverbs/Pods/BoringSSL-GRPC/ssl/handshake.cc:491-628 | against any peer, a finished side has sent exactly the messages its negotiation asks for, in their order: a server's ServerKeyExchange with ECDHE or with a hint for a shared key, a client's CertificateVerify with a certificate it was asked for |
| TlsSends.FalseStartIff | Proverbs/Pods/BoringSSL-GRPC/ssl/handshake_client.cc:1538-1564 | a handshake is handed back early only by a client that may, in a full handshake, once its cipher change and its Finished are queued; and such a client never finishes without having done so |
| TlsSends.BufferIsGivenUp | Proverbs/Pods/BoringSSL-GRPC/ssl/ssl_transcript.cc:142-160 | against any peer, the handshake buffer is given up as soon as no CertificateVerify can be made or checked over it any more, and a finished side holds none |
| TlsChecks.OnlyVerifiedIsTrusted | Proverbs/Pods/BoringSSL-GRPC/ssl/handshake.cc:288-378 | against any peer, a finished client that negotiated a certificate, and a finished server that was sent one, went through a verification of it that succeeded |
| TlsChecks.FailureTouchesNothing | Proverbs/Pods/BoringSSL-GRPC/ssl/handshake.cc:491-628 | a step in which an operation fails, or has to wait for the application or a key, reads, queues and records nothing |
| TlsChecks.TurnTells | Proverbs/Pods/BoringSSL-GRPC/ssl/handshake.cc:431-476 | a turn adds to the transcript exactly the messages it reads or queues |
| TlsPair.TurnFollows | Proverbs/Pods/BoringSSL-GRPC/ssl/handshake.cc:491-628 | each turn of a side reads the next item of the common script, says the next ones, or leaves the conversation alone |
| TlsPair.TranscriptsAgree | Proverbs/Pods/BoringSSL-GRPC/ssl/handshake.cc:380-476 | for every choice of settings and any waits and delays: a Finished, CertificateVerify or ChannelID about to be read was made over exactly the transcript its reader has |
| TlsPair.HonestPeersNeverFail | Proverbs/Pods/BoringSSL-GRPC/ssl/handshake.cc:491-628 | two honest sides never fail each other; an error needs a failure from outside |
| TlsPair.SecretsAgree | Proverbs/Pods/BoringSSL-GRPC/ssl/t1_enc.cc:301-335 | both sides derive the extended master secret over the same transcript, and put the same one on record for Channel ID |
| TlsPair.DoneTogether | Proverbs/Pods/BoringSSL-GRPC/ssl/handshake.cc:491-628 | when both are done, transcript and settings are equal and nothing is left unread |
| TlsFinish.StuckListens | Proverbs/Pods/BoringSSL-GRPC/ssl/handshake.cc:491-628 | a side that cannot move though nothing fails has read everything, and the script says that its peer speaks next |
| TlsFinish.NoDeadlock | Proverbs/Pods/BoringSSL-GRPC/ssl/handshake.cc:491-628 | in every reachable state without an error and with nothing on the way, one side can move or both are done: they never wait for each other |
| TlsFinish.CanAlwaysFinish | Proverbs/Pods/BoringSSL-GRPC/ssl/handshake.cc:491-628 | for every choice of settings, after any run without failures some further run without failures brings both sides to done |
| TlsDriver.Handshake.ClientStep | Proverbs/Pods/BoringSSL-GRPC/ssl/handshake_client.cc:1707-1789 | the switch and the handlers behind it do to the object's fields what the client machine does |
| TlsDriver.Handshake.ServerStep | Proverbs/Pods/BoringSSL-GRPC/ssl/handshake_server.cc:1539-1621 | the switch and the handlers behind it do to the object's fields what the server machine does |
| TlsDriver.Handshake.Receive | Proverbs/Pods/BoringSSL-GRPC/ssl/handshake.cc:491-628 | what arrives goes behind what has arrived; the object stays where the machine is after the same events |
| TlsDriver.Handshake.Resume | Proverbs/Pods/BoringSSL-GRPC/ssl/handshake.cc:491-628 | a wait for a ChangeCipherSpec takes one and nothing else, an error is final, and then one step; the object stays where the machine is after the same events |
| TlsDriver.Handshake.RunHandshake | Proverbs/Pods/BoringSSL-GRPC/ssl/handshake_client.cc:1707-1789 | the loop ends, with ok exactly if the handshake is done; then the object has queued one ChangeCipherSpec and one Finished and read one of each, in the order that resumption fixes, has sent and read just what its negotiation allows, verified the certificate it uses, and everything the peer vouches for was made by it over this side's conversation |
| TlsConverse.Conversation.Act | Proverbs/Pods/BoringSSL-GRPC/ssl/handshake.cc:491-628 | two handshake objects over two queues stay where the two machines are after the same acts |
| TlsConverse.Converse | Proverbs/Pods/BoringSSL-GRPC/ssl/handshake.cc:380-476 | any conversation of two objects: what is about to be read was made over the reader's transcript, the secrets agree, without failures from outside there is no error, each side closes in order, and when both are done transcript and settings are equal with nothing unread |
| TlsConverse.Complete | Proverbs/Pods/BoringSSL-GRPC/ssl/handshake.cc:491-628 | a conversation in which nothing has failed is brought to its end on both objects, by delivering and stepping alone |
| TlsMessages.RawParses | Proverbs/Pods/BoringSSL-GRPC/ssl/s3_both.cc:399-425 | a message written with its header is parsed back, whatever follows |
| TlsMessages.ParsedIsRaw | Proverbs/Pods/BoringSSL-GRPC/ssl/s3_both.cc:399-425 | what is parsed is exactly what was written: no other bytes give this message |
| TlsMessages.MessagesArrive | Proverbs/Pods/BoringSSL-GRPC/ssl/s3_both.cc:184-205 | however messages are cut into records, mixed with others, and reading and taking records alternate: the messages read are those queued, in order, and in the end all of them with nothing left over |
| TlsMessages.NeverExcessive | Proverbs/Pods/BoringSSL-GRPC/ssl/s3_both.cc:441-459 | between messages the next record is refused exactly if the message that has begun is over the limit |
| TlsMessages.QueueingCarries | Proverbs/Pods/BoringSSL-GRPC/ssl/s3_both.cc:184-205 | queueing one more message adds exactly it to what the records carry |
| TlsMessages.RunCarries | Proverbs/Pods/BoringSSL-GRPC/ssl/s3_both.cc:184-205 | over a whole run of the write path the handshake records carry exactly the messages queued, whatever application data, alerts and flushes come in between |
| TlsMessages.WriterToReader | Proverbs/Pods/BoringSSL-GRPC/ssl/s3_both.cc:399-583 | from any such run to a reader of its records: the messages read are a beginning of those queued, and in the end all |
| TlsMessages.HandshakeReader.FirstMessage | Proverbs/Pods/BoringSSL-GRPC/ssl/s3_both.cc:399-425 | the first message, or how many bytes it needs |
| TlsMessages.HandshakeReader.GetMessage | Proverbs/Pods/BoringSSL-GRPC/ssl/s3_both.cc:427-439 | gives the first message if it is whole, and notes that it was given |
| TlsMessages.HandshakeReader.CanAccept | Proverbs/Pods/BoringSSL-GRPC/ssl/s3_both.cc:441-459 | no whole message waits, and the one that has begun is within the limit |
| TlsMessages.HandshakeReader.HasUnprocessed | Proverbs/Pods/BoringSSL-GRPC/ssl/s3_both.cc:461-472 | true exactly if there are bytes beyond the message that was handed out |
| TlsMessages.HandshakeReader.OpenHandshake | Proverbs/Pods/BoringSSL-GRPC/ssl/s3_both.cc:474-560 | a handshake record is appended exactly if it was accepted and opened; otherwise the bytes stay as they were |
| TlsMessages.HandshakeReader.NextMessage | Proverbs/Pods/BoringSSL-GRPC/ssl/s3_both.cc:562-583 | the message is cut off in place and the rest moved down; after the handshake an empty buffer is released |
| SslBuffer.ConsumeIsExact | Proverbs/Pods/BoringSSL-GRPC/ssl/ssl_buffer.cc:90-97 | consuming leaves just the rest of the data, whatever is in memory, if and only if the 16-bit offset does not wrap or nothing is left |
| SslBuffer.ConsumeRoomy | Proverbs/Pods/BoringSSL-GRPC/ssl/ssl_buffer.cc:90-97 | it never wraps in a buffer whose offset and capacity together stay below 2^16 |
| SslBuffer.EnsuredData | Proverbs/Pods/BoringSSL-GRPC/ssl/ssl_buffer.cc:47-81 | growing keeps the data, and leaves room against the wrap if the capacity asked for is at least 8 below 2^16 |
| SslBuffer.SSLBuffer.Clear | Proverbs/Pods/BoringSSL-GRPC/ssl/ssl_buffer.cc:39-45 | the memory is given up |
| SslBuffer.SSLBuffer.EnsureCap | Proverbs/Pods/BoringSSL-GRPC/ssl/ssl_buffer.cc:47-81 | grows to the capacity asked for with the payload aligned, wherever malloc puts it and whatever is in it; refuses 2^16 or more, and changes nothing on failure |
| SslBuffer.SSLBuffer.Append | Proverbs/Pods/BoringSSL-GRPC/ssl/ssl_buffer.cc:83-88 | the bytes go behind the data and nothing else in memory changes |
| SslBuffer.SSLBuffer.Consume | Proverbs/Pods/BoringSSL-GRPC/ssl/ssl_buffer.cc:90-97 | offset, size and capacity move by the length, the offset in 16 bits |
| TlsWrite.FlushKeeps | Proverbs/Pods/BoringSSL-GRPC/ssl/ssl_buffer.cc:239-252 | however partially the buffer is written: wire, buffer and flight stay the sealed records in order, unless Consume wraps with data left |
| TlsWrite.FlushNeverLosesIff | Proverbs/Pods/BoringSSL-GRPC/ssl/ssl_buffer.cc:239-252 | no transport makes flushing lose bytes if and only if the data in the buffer ends at 2^16 or below |
| TlsWrite.AddMessageKeeps | Proverbs/Pods/BoringSSL-GRPC/ssl/s3_both.cc:184-205 | the same for queueing a message, whose records hold a beginning of it, all of it if nothing failed, one record even if it is empty |
| TlsWrite.FlushFlightKeeps | Proverbs/Pods/BoringSSL-GRPC/ssl/s3_both.cc:231-279 | the same for the flight, which goes out behind what is in the buffer |
| TlsWrite.SealRecordKeeps | Proverbs/Pods/BoringSSL-GRPC/ssl/s3_pkt.cc:236-285 | the same for moving the flight into the buffer and sealing a record behind it |
| TlsWrite.DoWriteKeeps | Proverbs/Pods/BoringSSL-GRPC/ssl/s3_pkt.cc:221-289 | the same for a record of any type, pending or new |
| TlsWrite.DoWriteLosesNothing | Proverbs/Pods/BoringSSL-GRPC/ssl/s3_pkt.cc:236-252 | a record and the flight before it that leave 8 bytes below 2^16 never make Consume wrap |
| TlsWrite.DoWriteWrote | Proverbs/Pods/BoringSSL-GRPC/ssl/s3_pkt.cc:202-289 | a pending record is finished and not sealed again; otherwise at most one new record is sealed; a positive result means that it is flushed to the last byte |
| TlsWrite.AppProgress | Proverbs/Pods/BoringSSL-GRPC/ssl/s3_pkt.cc:129-200 | the bytes sealed and not yet reported are carried over each attempt, never lost or counted twice |
| TlsWrite.OtherTypeLeavesData | Proverbs/Pods/BoringSSL-GRPC/ssl/s3_pkt.cc:221-289 | writing a record of another type leaves the application data sealed so far and the count of unreported bytes |
| TlsWrite.PiecesLeaveData | Proverbs/Pods/BoringSSL-GRPC/ssl/s3_both.cc:184-205 | handshake messages in between leave the application data alone |
| TlsWriteRuns.OrderedRun | Proverbs/Pods/BoringSSL-GRPC/ssl/s3_pkt.cc:129-289 | in every run of calls, whatever the transport, the AEAD and the allocator do: until Consume wraps with data left, wire ++ buffer ++ rest of the flight is all records sealed so far, in order; early data never exceeds the ticket's limit |
| TlsWriteRuns.RoomyRunIsOrdered | Proverbs/Pods/BoringSSL-GRPC/ssl/s3_pkt.cc:129-289 | a run in which, wherever application data or an alert is written, the flight before it and the largest record leave 8 bytes below 2^16 loses nothing and keeps the order, whatever the transport does |
| TlsWriteRuns.SmallRunIsOrdered | Proverbs/Pods/BoringSSL-GRPC/ssl/s3_pkt.cc:129-289 | the same from the calls alone: it is enough that the records of all messages of the run and one record leave 8 bytes below 2^16 |
| TlsWriteRuns.WriteAppDataOnce | Proverbs/Pods/BoringSSL-GRPC/ssl/s3_pkt.cc:129-200 | one call that continues a write: every byte is sealed once and in order, and a positive result k means exactly the first k bytes were sealed and flushed |
| TlsWriteRuns.RetriesOnce | Proverbs/Pods/BoringSSL-GRPC/ssl/s3_pkt.cc:129-200 | the same over any number of retries, each with the buffer before it or a longer one that begins with it, with handshake messages, flushes and alerts in between |
| TlsWriteRuns.ShortRetryForgets | Proverbs/Pods/BoringSSL-GRPC/ssl/s3_pkt.cc:141-159 | a retry shorter than what was reported fails and leaves a state from which no buffer continues the write |
| TlsWriteRuns.ShorterRetryIff | Proverbs/Pods/BoringSSL-GRPC/ssl/s3_pkt.cc:129-200 | a retry with a beginning of the buffer continues or completes the write if and only if it is no shorter than what was reported; one that ends within the pending record is refused without harm |
| TlsWriteRuns.RetriesOnceIff | Proverbs/Pods/BoringSSL-GRPC/ssl/s3_pkt.cc:129-200 | over any run of writes with beginnings of one buffer and other calls in between: every byte is sealed once and in order, with what the results say, if and only if no write was shorter than what had been reported by then |
| TlsWriteLive.FlushBufferIff | Proverbs/Pods/BoringSSL-GRPC/ssl/ssl_buffer.cc:239-252 | the buffer is flushed if and only if the outcomes before the transport's first failure add up to its size; if not, the result is that failure and just so many bytes have left |
| TlsWriteLive.FlushedIsOnWire | Proverbs/Pods/BoringSSL-GRPC/ssl/ssl_buffer.cc:239-252 | and just these bytes are on the wire, as long as the offset does not wrap |
| TlsWriteLive.WriteFlightIff | Proverbs/Pods/BoringSSL-GRPC/ssl/s3_both.cc:257-269 | the same condition for what is left of the flight |
| TlsWriteLive.WrittenIsOnWire | Proverbs/Pods/BoringSSL-GRPC/ssl/s3_both.cc:257-269 | and what has left the flight is on the wire |
| TlsWriteLive.FlushFlightIff | Proverbs/Pods/BoringSSL-GRPC/ssl/s3_both.cc:231-279 | a pending flight is flushed if and only if the connection is open, its size fits an int, and the transport takes the buffer, the flight and then its own flush |
| TlsWriteLive.FlightGetsThrough | Proverbs/Pods/BoringSSL-GRPC/ssl/s3_both.cc:231-279 | so a transport that goes on taking bytes, however few at a time, gets it all out |
| TlsWriteLive.RecordIff | Proverbs/Pods/BoringSSL-GRPC/ssl/s3_pkt.cc:236-289 | with nothing pending, a record is written if and only if there is memory, the seal works, and the transport takes the flight before it and the record |
| TlsWriteLive.MessageIff | Proverbs/Pods/BoringSSL-GRPC/ssl/s3_both.cc:184-205 | a message is queued if and only if the seals of its records work, in records as large as they may be but for the last |
| TlsWriteLive.WriteGetsThrough | Proverbs/Pods/BoringSSL-GRPC/ssl/s3_pkt.cc:129-200 | with seals and memory that work and a transport that goes on, a write returns its whole length, having sealed its bytes in records as large as they may be but for the last; if nothing was lost, all of it is on the wire |
| TlsWriteLive.RetryGetsThrough | Proverbs/Pods/BoringSSL-GRPC/ssl/s3_pkt.cc:129-218 | so does a retry: the pending record goes out first, and then the rest behind it |
| TlsWriteLive.PartialGetsThrough | Proverbs/Pods/BoringSSL-GRPC/ssl/s3_pkt.cc:129-200 | with partial writes allowed, one record is written and reported |
| TlsWriteLive.EarlyDataEnds | Proverbs/Pods/BoringSSL-GRPC/ssl/s3_pkt.cc:160-180 | a write of early data asks for the handshake exactly where the limit is used up; what was reported is kept, and later writes are no early data |
| TlsWriteLive.AlertIsTwoBytes | Proverbs/Pods/BoringSSL-GRPC/ssl/s3_pkt.cc:405-423 | an alert is sealed as level and description under type 21, once, and only if nothing is pending |
| TlsWriteLive.AlertIff | Proverbs/Pods/BoringSSL-GRPC/ssl/s3_pkt.cc:405-423 | with nothing pending it gets through under the same exact condition |
| TlsWriteFaults.ShortRetryRepeats | Proverbs/Pods/BoringSSL-GRPC/ssl/s3_pkt.cc:141-159 | the run that shows it: of a write of a ++ b that is blocked in b, retried too short and then in full from moved memory, and that reports success in full, a, b and b again were sealed |
| TlsWriteFaults.FailedWriteIff | Proverbs/Pods/BoringSSL-GRPC/ssl/s3_pkt.cc:236-273 | a failed write can be tried again if and only if it reserved no capacity or nothing was left of the flight; otherwise the flight sits in the buffer, none of it on the wire |
| TlsWriteFaults.RefusedForGood | Proverbs/Pods/BoringSSL-GRPC/ssl/s3_pkt.cc:227-231 | from then on every write and alert fails, flushing reports success and does nothing, and wire and buffer stay as they are, until a message is queued |
| TlsWriteFaults.SealFailureStrands | Proverbs/Pods/BoringSSL-GRPC/ssl/s3_pkt.cc:236-273 | the run that shows it, from the start: a message is queued, the seal of application data behind it fails, and whatever is called later the message's record stays in the buffer |
| TlsWriteFaults.LostRun | Proverbs/Pods/BoringSSL-GRPC/ssl/ssl_buffer.cc:90-97 | a run in which a buffer of 65535 bytes is taken but for its last five: the offset wraps, and wire and buffer are not the sealed records any more |
| TlsWriter.Writer.FlushOnce | Proverbs/Pods/BoringSSL-GRPC/ssl/ssl_buffer.cc:239-252 | a partial write moves exactly the bytes taken from buffer to wire |
| TlsWriter.Writer.Flush | Proverbs/Pods/BoringSSL-GRPC/ssl/ssl_buffer.cc:239-252 | the loop is the specified flush, which goes on until the buffer is empty or the transport refuses (TlsWriteLive.FlushBufferIff) |
| TlsWriter.Writer.QueueRecord | Proverbs/Pods/BoringSSL-GRPC/ssl/s3_both.cc:135-165 | seals one record behind the flight, or changes nothing of what was sealed |
| TlsWriter.Writer.QueueMessage | Proverbs/Pods/BoringSSL-GRPC/ssl/s3_both.cc:184-205 | cuts the message into records of at most the fragment size, one even for an empty message |
| TlsWriter.Writer.SendFlight | Proverbs/Pods/BoringSSL-GRPC/ssl/s3_both.cc:257-269 | the flight goes out from its offset |
| TlsWriter.Writer.FlushQueue | Proverbs/Pods/BoringSSL-GRPC/ssl/s3_both.cc:231-279 | buffer first, then flight; success means both are gone |
| TlsWriter.Writer.FinishRecord | Proverbs/Pods/BoringSSL-GRPC/ssl/s3_pkt.cc:202-218 | a retry with a shorter buffer, another type or a moved buffer fails; success reports the length memorized when it was sealed |
| TlsWriter.Writer.PutRecord | Proverbs/Pods/BoringSSL-GRPC/ssl/s3_pkt.cc:236-285 | capacity for flight and record, the flight into the buffer, the record behind it, and the arguments memorized exactly if it was sealed |
| TlsWriter.Writer.PutAndFlush | Proverbs/Pods/BoringSSL-GRPC/ssl/s3_pkt.cc:221-289 | finishes a pending record or writes a new one, and refuses while something is in the buffer that belongs to no pending record |
| TlsWriter.Writer.Write | Proverbs/Pods/BoringSSL-GRPC/ssl/s3_pkt.cc:129-200 | the loop over records of at most the fragment size and of what is left of the early data limit, and what it keeps for a retry |
| TlsWriter.Writer.SendAlert | Proverbs/Pods/BoringSSL-GRPC/ssl/s3_pkt.cc:405-423 | an alert goes out as a record of its own; a fatal one is flushed through |
| TlsWriter.Serve | Proverbs/Pods/BoringSSL-GRPC/ssl/s3_pkt.cc:129-289 | any run on the object: its transport, buffer and flight hold the sealed records in order unless something was lost, which cannot be where flight and record leave room; early data is within its limit |
| Premaster.ZeroWords | Proverbs/Pods/BoringSSL-GRPC/crypto/internal.h:303-316 | the zero test is all ones for zero and zero otherwise, for every word |
| Premaster.EqWords | Proverbs/Pods/BoringSSL-GRPC/crypto/internal.h:325-328 | the equality test is all ones for equal words and zero otherwise |
| Premaster.SelectWords | Proverbs/Pods/BoringSSL-GRPC/crypto/internal.h:351-355 | the select gives the first value under all ones and the second under zero |
| Premaster.Masks8 | Proverbs/Pods/BoringSSL-GRPC/crypto/internal.h:320-362 | the byte versions do the same through the word versions and a cast |
| Premaster.GoodIsUnpadded | Proverbs/Pods/BoringSSL-GRPC/ssl/handshake_server.cc:1142-1178 | the outcome, defined by scanning for the separator as section 7.2.2 of RFC 3447 does, is the decrypted tail if every single byte of the block is as it must be, and otherwise the random premaster |
| Premaster.ReadPremaster | Proverbs/Pods/BoringSSL-GRPC/ssl/handshake_server.cc:1142-1178 | the branch-free code gives, for every block length, exactly that outcome, and fails on lengths that are wrong in public |
| Premaster.CheckPadding | Proverbs/Pods/BoringSSL-GRPC/ssl/handshake_server.cc:1157-1171 | the accumulated mask is all ones exactly if the block is 00 02, non-zero padding, 00, client version |
| Premaster.Select | Proverbs/Pods/BoringSSL-GRPC/ssl/handshake_server.cc:1173-1178 | byte by byte the mask picks one of the two and never mixes them |
| Refcount.Locked.Inc | Proverbs/Pods/BoringSSL-GRPC/crypto/refcount_lock.c:29-35 | one more, unless saturated |
| Refcount.Locked.DecAndTestZero | Proverbs/Pods/BoringSSL-GRPC/crypto/refcount_lock.c:37-51 | one less, unless saturated; true exactly if it got to zero |
| Refcount.CallsRefineLocked | Proverbs/Pods/BoringSSL-GRPC/crypto/refcount_c11.c:37-65 | each compare-and-swap call takes effect in one step, which is the locked operation; failed and spurious attempts change nothing |
| Refcount.AloneFinishes | Proverbs/Pods/BoringSSL-GRPC/crypto/refcount_c11.c:37-65 | wherever a thread stands in its loop, two rounds without interference end the call with just the effect of the locked operation |
| Refcount.CallAlone | Proverbs/Pods/BoringSSL-GRPC/crypto/refcount_c11.c:37-65 | from outside: an increment increments, and a decrement decrements and tells whether it was the last |
| Refcount.CountIsOwned | Proverbs/Pods/BoringSSL-GRPC/crypto/refcount_c11.c:37-65 | any threads, any interleaving, any spurious failures: no call aborts, the count is the number of owned references until it saturates, and one decrement returns 1 exactly when the last is gone |
| Refcount.SaturationSticks | Proverbs/Pods/BoringSSL-GRPC/crypto/refcount_c11.c:37-65 | at the maximum the count stays and no decrement returns 1 |
| CipherChoice.Choose | Proverbs/Pods/BoringSSL-GRPC/ssl/handshake_server.cc:386-423 | the loop returns a candidate of the first group that has one, least on the other list, and nothing exactly if every candidate is in a last group that never ends |
| CipherChoice.ChooseCipher | Proverbs/Pods/BoringSSL-GRPC/ssl/handshake_server.cc:357-424 | with the lists in their roles: the choice is shared and compatible, and best; with a terminated last group none is missed |
| CipherChoice.TerminatedNeverGivesUp | Proverbs/Pods/BoringSSL-GRPC/ssl/handshake_server.cc:357-424 | if the last group flag is 0, a cipher is chosen exactly if the lists share a compatible one |
| CipherChoice.UnterminatedGivesUp | Proverbs/Pods/BoringSSL-GRPC/ssl/handshake_server.cc:357-424 | with a last flag of 1 the one shared cipher is not chosen |

## Left out

- PbRoundTrip.RoundTrip: does not cover encodings of 2^63 bytes and more, because a length from there on may be accepted and read as another one (PbVarint.TwoThatWrap).
- PbEncoder.EncodeMessage: takes the struct as a value, so partial structs after a failed decode and aliasing between source and stream are not captured; the same holds for the decoder's destination.
- PbOutput.OStream.Write: a count that would overflow size_t is refused instead of wrapping.
- PbTypes.DefaultsAt: descriptors are those of a build with PB_FIELD_32BIT, as this one is; the 8-bit and 16-bit builds are not modelled.
- PbMerge.ConcatenationMerges: for descriptors without callbacks, extensions and fixed-count arrays, as throughout.
- nanopb callbacks, extensions, pointer fields (`PB_ENABLE_MALLOC`), fixed-count arrays, streams that are not buffers, and the delimited and NUL-terminated variants: user code or heap memory outside the model.
- nanopb string bytes behind the NUL, and the contents of a oneof that is not selected: not part of a message's value.
- A struct whose C types do not match its descriptor is refused instead of being undefined.
- DtlsSender.Sender.SealNextMessage: AEAD, BIO and CBB appear as the outcome and growth of each seal; record sequence numbers are not tracked in the sender.
- DtlsReceiver.Receiver.OpenHandshake: the record layer's part is in ReplayWindow; here a record arrives decrypted.
- DtlsNetwork.EndToEnd: for fewer than 65536 messages; DtlsWrap.PrefixIffNumbersLast shows that this bound is exact. Records are honest: forgery is up to the AEAD.
- DtlsSender.Sender.Add: the transcript update and the callback are not modelled.
- Retransmission timers, MTU queries, HelloVerifyRequest and the DTLS states of the client machine.
- TlsDriver.Handshake.Resume: flushing and reading from the transport are the arrival of items; waits on the application are one kind of wait.
- TlsDriver.Handshake.ReadServerHello: versions, random values, extensions and session contents are carried as one record of settings and opaque bytes.
- TlsDriver.Handshake.SendClientFinished: the signature of a resumed ChannelID also covers the original handshake's hash, which is only put on record here; what a step that fails has already written is not captured.
- TlsPair.TranscriptsAgree: signatures and Finished values are ideal, and each cipher suite is its key exchange and authentication.
- TLS 1.3, SSL 3.0, V2ClientHello, renegotiation, handoff, early data in the handshake machine, X.509, the session cache and alerts.
- TlsMessages.HandshakeReader.OpenHandshake: the checks for plain HTTP requests, and memory running out, are not modelled.
- TlsWriter.Writer.PutRecord: `tls_seal_record` is a contract on lengths and a failure; size_t overflow checks and KeyUpdate flags are not modelled. The pending flight's memory is a value, and a failure to allocate it counts as a failing seal.
- TlsWriteRuns.OrderedRun: promises nothing after Consume has wrapped with data left, because the source then loses bytes (TlsWriteFaults.LostRun); TlsWriteRuns.RoomyRunIsOrdered has no such proviso.
- Premaster.EqWords: for 64-bit words; the 32-bit build's words are not modelled.
- Premaster.ReadPremaster: timing is not modelled, nor are the `constant_time_lt` and `ge` helpers this path does not call, and the retry of the key operation.
- Refcount.CountIsOwned: threads are a state machine over their atomic steps, memory order is not modelled, and a thread that enters a call owns a reference.
- CipherChoice.ChooseCipher: how the key exchange and authentication masks come about is a parameter.
- The Swift application, the sign-in libraries and generated headers: glue and declarations.
