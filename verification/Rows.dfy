/**
 The rows of an event or metadata block (src/nettrace/blocks.rs, parse_event_rows): a block header, then
 delta-encoded rows until the content runs out. Header state starts from zero in every block.
 */
module Rows {
  import opened Wire
  import opened Decode
  import opened Fields
  import opened Readers
  import opened Events

  /** What a row becomes for the caller: the payload stays encoded. */
  datatype RawEvent = RawEvent(metadataId: u32, timestamp: u64, stackId: u32, payload: seq<byte>)

  /** A block header cannot be shorter than this: its size, flags, and two timestamps. */
  const MIN_BLOCK_HEADER_SIZE: u16 := 20

  function EventOf(h: Header, payload: seq<byte>): RawEvent {
    RawEvent(h.metadataId, h.timestamp, h.stackId, payload)
  }

  // ----- Decoding

  function ReadHeader(compressed: bool, h: Header, s: seq<byte>): (p: Parsed<Header>)
    ensures p.Done? ==> |p.rest| + 2 <= |s|
  {
    if compressed then CompressedHeader(h, s) else UncompressedHeader(h, s)
  }

  /** Every row takes at least two bytes, which is why the loop over the content ends. */
  function ReadRows(compressed: bool, h: Header, s: seq<byte>): (p: Parsed<seq<RawEvent>>)
    decreases |s|
  {
    if s == [] then Done([], [])
    else
      var (row, s1) :- ReadHeader(compressed, h, s);
      var (payload, s2) :- Take(s1, row.payloadSize);
      var (rows, s3) :- ReadRows(compressed, row, s2);
      Done([EventOf(row, payload)] + rows, s3)
  }

  function ParseEventRows(content: seq<byte>): Parsed<seq<RawEvent>> {
    var (headerSize, s1) :- U16(content);
    if headerSize < MIN_BLOCK_HEADER_SIZE then Failed(Unexpected(BlockHeaderSize))
    else
      var (flags, s2) :- U16(s1);
      var (_, s3) :- Take(s2, headerSize - 4);
      ReadRows(flags % 2 == 1, ZERO_HEADER, s3)
  }

  lemma ReadRowsStep(compressed: bool, h: Header, s: seq<byte>)
    requires s != []
    ensures ReadRows(compressed, h, s) ==
            match ReadHeader(compressed, h, s)
            case Failed(e) => Failed(e)
            case Done(row, s1) =>
              match Take(s1, row.payloadSize)
              case Failed(e) => Failed(e)
              case Done(payload, s2) => After([EventOf(row, payload)], ReadRows(compressed, row, s2))
  {
  }

  lemma ReadRowsEnd(compressed: bool, h: Header, events: seq<RawEvent>)
    ensures After(events, ReadRows(compressed, h, [])) == Done(events, [])
  {
    assert events + [] == events;
  }

  method ReadAllRows(r: Reader, compressed: bool) returns (result: Result<seq<RawEvent>>)
    requires r.Valid()
    modifies r
    ensures r.Valid() && Matches(ReadRows(compressed, ZERO_HEADER, old(r.Rest())), result, r.Rest())
  {
    hide Take, CompressedHeader, UncompressedHeader, ReadRows, After;
    var header := new EventHeader();
    var events: seq<RawEvent> := [];
    ghost var whole := ReadRows(compressed, ZERO_HEADER, r.Rest());
    assert After(events, whole) == whole;
    while true
      invariant r.Valid() && fresh(header)
      invariant whole == After(events, ReadRows(compressed, header.Value(), r.Rest()))
      decreases |r.Rest()|
    {
      var left := r.Remaining();
      if left == 0 {
        ReadRowsEnd(compressed, header.Value(), events);
        return Ok(events);
      }
      ghost var s, before := r.Rest(), header.Value();
      ReadRowsStep(compressed, before, s);
      if compressed {
        var _ :- header.ReadCompressed(r);
      } else {
        var _ :- header.ReadUncompressed(r);
      }
      var payload :- r.Take(header.payloadSize);
      var event := RawEvent(header.metadataId, header.timestamp, header.stackId, payload);
      AfterTwice(events, [event], ReadRows(compressed, header.Value(), r.Rest()));
      events := events + [event];
    }
  }

  method ReadBlock(r: Reader) returns (result: Result<seq<RawEvent>>)
    requires r.Valid()
    modifies r
    ensures r.Valid() && Matches(ParseEventRows(old(r.Rest())), result, r.Rest())
  {
    hide U16, Take, ReadHeader, ReadRows;
    var headerSize :- r.U16();
    if headerSize < MIN_BLOCK_HEADER_SIZE {
      return Err(Unexpected(BlockHeaderSize));
    }
    var flags :- r.U16();
    var _ :- r.Skip(headerSize - 4);
    result := ReadAllRows(r, flags % 2 == 1);
  }

  method ParseRows(content: seq<byte>) returns (result: Result<seq<RawEvent>>)
    ensures match ParseEventRows(content)
            case Done(events, _) => result == Ok(events)
            case Failed(e) => result == Err(e)
  {
    hide ParseEventRows;
    var r := new Reader(content);
    result := ReadBlock(r);
  }
}
