/**
 The row header of src/nettrace/event.rs as the object it is: its fields are the state carried from one row
 to the next, overwritten in place by each read.
 */
module Events {
  import opened Wire
  import opened Decode
  import opened Readers
  import opened Fields

  /** The header carried from row to row; reading a row overwrites it in place. */
  class EventHeader {
    var metadataId: u32
    var sequence: u32
    var captureThread: u64
    var processor: u32
    var threadId: u64
    var stackId: u32
    var timestamp: u64
    var activityId: seq<byte>
    var relatedId: seq<byte>
    var sorted: bool
    var payloadSize: u32

    ghost function Value(): Header
      reads this
    {
      Header(metadataId, sequence, captureThread, processor, threadId, stackId, timestamp,
             activityId, relatedId, sorted, payloadSize)
    }

    /** The fields now hold what the decoding function says, and the reader is where it says. */
    ghost predicate MatchesHeader(p: Parsed<Header>, result: Result<()>, r: Reader)
      requires r.Valid()
      reads this, r
    {
      match p
      case Done(h, k) => result.Ok? && Value() == h && r.Rest() == k
      case Failed(e) => result == Err(e)
    }

    constructor ()
      ensures Value() == ZERO_HEADER
    {
      metadataId, sequence, captureThread, processor, threadId := 0, 0, 0, 0, 0;
      stackId, timestamp, sorted, payloadSize := 0, 0, false, 0;
      activityId, relatedId := ZERO_ID, ZERO_ID;
    }

    method ReadCapture(r: Reader, flags: byte) returns (result: Result<()>)
      requires r.Valid()
      modifies this`sequence, this`captureThread, this`processor, r
      ensures r.Valid()
      ensures var p := Fields.CaptureFields(Has(flags, CAPTURE_THREAD_AND_SEQUENCE), old(r.Rest()), old(Value()),
                                          metadataId);
              match p
              case Done(c, k) => result.Ok? && r.Rest() == k && Capture(sequence, captureThread, processor) == c
              case Failed(e) => result == Err(e)
    {
      hide VarUInt32, VarUInt64, Has;
      if Has(flags, CAPTURE_THREAD_AND_SEQUENCE) {
        var delta :- r.VarUInt32();
        sequence := (sequence + delta + 1) % TWO_32;
        captureThread :- r.VarUInt64();
        processor :- r.VarUInt32();
      } else if metadataId != 0 {
        sequence := (sequence + 1) % TWO_32;
      }
      return Ok(());
    }

    method ReadOrigin(r: Reader, flags: byte) returns (result: Result<()>)
      requires r.Valid()
      modifies this, r
      ensures r.Valid() && MatchesHeader(Fields.ReadOrigin(flags, old(r.Rest()), old(Value())), result, r)
    {
      hide VarUInt32, Has;
      if Has(flags, METADATA_ID) {
        metadataId :- r.VarUInt32();
      }
      result := ReadCapture(r, flags);
    }

    method ReadMoment(r: Reader, flags: byte) returns (result: Result<()>)
      requires r.Valid()
      modifies this, r
      ensures r.Valid() && MatchesHeader(Fields.ReadMoment(flags, old(r.Rest()), old(Value())), result, r)
    {
      hide VarUInt32, VarUInt64, Has;
      if Has(flags, THREAD_ID) {
        threadId :- r.VarUInt64();
      }
      if Has(flags, STACK_ID) {
        stackId :- r.VarUInt32();
      }
      var delta :- r.VarUInt64();
      timestamp := (timestamp + delta) % TWO_64;
      return Ok(());
    }

    method ReadTail(r: Reader, flags: byte) returns (result: Result<()>)
      requires r.Valid()
      modifies this, r
      ensures r.Valid() && MatchesHeader(Fields.ReadTail(flags, old(r.Rest()), old(Value())), result, r)
    {
      hide VarUInt32, Take, Has;
      if Has(flags, ACTIVITY_ID) {
        activityId :- r.Take(16);
      }
      if Has(flags, RELATED_ACTIVITY_ID) {
        relatedId :- r.Take(16);
      }
      sorted := Has(flags, IS_SORTED);
      if Has(flags, PAYLOAD_SIZE) {
        payloadSize :- r.VarUInt32();
      }
      return Ok(());
    }

    method ReadCompressed(r: Reader) returns (result: Result<()>)
      requires r.Valid()
      modifies this, r
      ensures r.Valid() && MatchesHeader(Fields.CompressedHeader(old(Value()), old(r.Rest())), result, r)
    {
      hide U8, Fields.ReadOrigin, Fields.ReadMoment, Fields.ReadTail;
      var flags :- r.U8();
      var _ :- ReadOrigin(r, flags);
      var _ :- ReadMoment(r, flags);
      result := ReadTail(r, flags);
    }

    method ReadUncompressedOrigin(r: Reader) returns (result: Result<()>)
      requires r.Valid()
      modifies this, r
      ensures r.Valid() && MatchesHeader(Fields.UncompressedOrigin(old(r.Rest()), old(Value())), result, r)
    {
      hide U32, U64;
      var _ :- r.U32();
      var rawId :- r.U32();
      metadataId := rawId % 0x8000_0000;
      sorted := rawId < 0x8000_0000;
      sequence :- r.U32();
      threadId :- r.U64();
      captureThread :- r.U64();
      return Ok(());
    }

    method ReadUncompressedMoment(r: Reader) returns (result: Result<()>)
      requires r.Valid()
      modifies this, r
      ensures r.Valid() && MatchesHeader(Fields.UncompressedMoment(old(r.Rest()), old(Value())), result, r)
    {
      hide U32, U64;
      processor :- r.U32();
      stackId :- r.U32();
      timestamp :- r.U64();
      return Ok(());
    }

    method ReadUncompressedTail(r: Reader) returns (result: Result<()>)
      requires r.Valid()
      modifies this, r
      ensures r.Valid() && MatchesHeader(Fields.UncompressedTail(old(r.Rest()), old(Value())), result, r)
    {
      hide U32, Take;
      activityId :- r.Take(16);
      relatedId :- r.Take(16);
      payloadSize :- r.U32();
      return Ok(());
    }

    method ReadUncompressed(r: Reader) returns (result: Result<()>)
      requires r.Valid()
      modifies this, r
      ensures r.Valid() && MatchesHeader(Fields.UncompressedHeader(old(Value()), old(r.Rest())), result, r)
    {
      hide Fields.UncompressedOrigin, Fields.UncompressedMoment, Fields.UncompressedTail;
      var _ :- ReadUncompressedOrigin(r);
      var _ :- ReadUncompressedMoment(r);
      result := ReadUncompressedTail(r);
    }
  }
}
