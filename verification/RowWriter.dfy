/**
 The writer for row blocks, and the proof that parsing a written block gives back its rows.
 */
module RowWriter {
  import opened Wire
  import opened Decode
  import opened Fields
  import opened Rows

  /**
   A logical row: in a compressed block with the fields its writer chose to spell out, in an uncompressed one with the
   size it leads with, which no reader looks at.
   */
  datatype Row = Row(header: Header, presence: Presence, size: u32, payload: seq<byte>)

  /** A block: its flag word, the rest of its header (two timestamps and any extension), and its rows. */
  datatype RowBlock = RowBlock(flags: u16, header: seq<byte>, rows: seq<Row>)

  /** An odd flag word says the rows are compressed. */
  predicate Compressed(b: RowBlock) { b.flags % 2 == 1 }

  /** Every row's clear bits agree with the row before it; an uncompressed row has none. */
  predicate RowsLegal(compressed: bool, prev: Header, rows: seq<Row>)
    decreases |rows|
  {
    rows == [] ||
    (&& WellFormed(rows[0].header)
     && (if compressed then Legal(prev, rows[0].header, rows[0].presence) else rows[0].header.metadataId < 0x8000_0000)
     && rows[0].header.payloadSize == |rows[0].payload|
     && RowsLegal(compressed, rows[0].header, rows[1..]))
  }

  predicate BlockLegal(b: RowBlock) {
    20 <= |b.header| + 4 < 0x1_0000 && RowsLegal(Compressed(b), ZERO_HEADER, b.rows)
  }

  function PutRow(compressed: bool, prev: Header, row: Row, k: seq<byte>): seq<byte> {
    if compressed then PutHeader(prev, row.header, row.presence, row.payload + k)
    else if row.header.metadataId < 0x8000_0000 then PutUncompressed(row.header, row.size, row.payload + k)
    else k
  }

  function PutRows(compressed: bool, prev: Header, rows: seq<Row>): seq<byte>
    decreases |rows|
  {
    if rows == [] then []
    else PutRow(compressed, prev, rows[0], PutRows(compressed, rows[0].header, rows[1..]))
  }

  function BlockContent(b: RowBlock): seq<byte>
    requires |b.header| + 4 < 0x1_0000
  {
    PutU16(|b.header| + 4, PutU16(b.flags, b.header + PutRows(Compressed(b), ZERO_HEADER, b.rows)))
  }

  function EventsOf(rows: seq<Row>): (events: seq<RawEvent>)
    ensures |events| == |rows|
    ensures forall i :: 0 <= i < |rows| ==>
      events[i] == RawEvent(rows[i].header.metadataId, rows[i].header.timestamp, rows[i].header.stackId, rows[i].payload)
  {
    seq(|rows|, i requires 0 <= i < |rows| => EventOf(rows[i].header, rows[i].payload))
  }

  lemma HeaderUndoesEither(compressed: bool, prev: Header, rows: seq<Row>)
    requires rows != [] && RowsLegal(compressed, prev, rows)
    ensures var tail := PutRows(compressed, rows[0].header, rows[1..]);
            && PutRows(compressed, prev, rows) != []
            && ReadHeader(compressed, prev, PutRows(compressed, prev, rows)) == Done(rows[0].header, rows[0].payload + tail)
  {
    hide PutHeader, PutUncompressed, CompressedHeader, UncompressedHeader, WellFormed, Legal;
    var row, tail := rows[0], PutRows(compressed, rows[0].header, rows[1..]);
    if compressed {
      HeaderUndoesPut(prev, row.header, row.presence, row.payload + tail);
    } else {
      UncompressedUndoesPut(prev, row.header, row.size, row.payload + tail);
      PutUncompressedLength(row.header, row.size, row.payload + tail);
    }
  }

  lemma PutUncompressedLength(h: Header, size: u32, k: seq<byte>)
    requires h.metadataId < 0x8000_0000
    ensures PutUncompressed(h, size, k) != []
  {
  }

  /** Rows written against any previous header, compressed with any legal presence bits or not, read back in order. */
  lemma {:induction false} RowsUndoPut(compressed: bool, prev: Header, rows: seq<Row>)
    requires RowsLegal(compressed, prev, rows)
    ensures ReadRows(compressed, prev, PutRows(compressed, prev, rows)) == Done(EventsOf(rows), [])
    decreases |rows|
  {
    hide PutRow, Take, ReadHeader, WellFormed, Legal;
    if rows == [] {
    } else {
      var row := rows[0];
      var tail := PutRows(compressed, row.header, rows[1..]);
      var s := PutRows(compressed, prev, rows);
      HeaderUndoesEither(compressed, prev, rows);
      TakeUndoesAppend(row.payload, tail);
      RowsUndoPut(compressed, row.header, rows[1..]);
      ReadRowsStep(compressed, prev, s);
      assert EventsOf(rows) == [EventOf(row.header, row.payload)] + EventsOf(rows[1..]);
    }
  }

  lemma BlockUndoesPut(b: RowBlock)
    requires BlockLegal(b)
    ensures ParseEventRows(BlockContent(b)) == Done(EventsOf(b.rows), [])
  {
    hide U16, PutU16, Take, ReadRows, PutRows, RowsLegal;
    var rows := PutRows(Compressed(b), ZERO_HEADER, b.rows);
    U16UndoesPut(|b.header| + 4, PutU16(b.flags, b.header + rows));
    U16UndoesPut(b.flags, b.header + rows);
    TakeUndoesAppend(b.header, rows);
    RowsUndoPut(Compressed(b), ZERO_HEADER, b.rows);
  }

  /** A header of fewer than twenty bytes is refused, whatever follows it. */
  lemma ShortHeaderIsRefused(size: u16, k: seq<byte>)
    requires size < 20
    ensures ParseEventRows(PutU16(size, k)) == Failed(Unexpected(BlockHeaderSize))
  {
    hide U16, PutU16;
    U16UndoesPut(size, k);
  }
}
