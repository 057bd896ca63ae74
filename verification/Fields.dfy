/**
 Event row headers (src/nettrace/event.rs): each row of a block is a delta against the row before it.
 A clear presence bit means "as in the previous row", not "zero".
 */
module Fields {
  import opened Wire
  import opened Decode

  datatype Header = Header(
    metadataId: u32,
    sequence: u32,
    captureThread: u64,
    processor: u32,
    threadId: u64,
    stackId: u32,
    timestamp: u64,
    activityId: seq<byte>,
    relatedId: seq<byte>,
    sorted: bool,
    payloadSize: u32)

  const ZERO_ID: seq<byte> := [0, 0, 0, 0, 0, 0, 0, 0, 0, 0, 0, 0, 0, 0, 0, 0]
  const ZERO_HEADER: Header := Header(0, 0, 0, 0, 0, 0, 0, ZERO_ID, ZERO_ID, false, 0)

  // Which bit of the flag byte says what.
  const METADATA_ID: nat := 0
  const CAPTURE_THREAD_AND_SEQUENCE: nat := 1
  const THREAD_ID: nat := 2
  const STACK_ID: nat := 3
  const ACTIVITY_ID: nat := 4
  const RELATED_ACTIVITY_ID: nat := 5
  const IS_SORTED: nat := 6
  const PAYLOAD_SIZE: nat := 7

  /** `flags & (1 << bit) != 0`. */
  predicate Has(flags: nat, bit: nat) {
    if bit == 0 then flags % 2 == 1 else Has(flags / 2, bit - 1)
  }

  // ----- Decoding

  function Var32If(present: bool, s: seq<byte>, previous: u32): (p: Parsed<u32>)
    ensures p.Done? ==> |p.rest| <= |s|
  {
    if present then VarUInt32(s) else Done(previous, s)
  }

  function Var64If(present: bool, s: seq<byte>, previous: u64): (p: Parsed<u64>)
    ensures p.Done? ==> |p.rest| <= |s|
  {
    if present then VarUInt64(s) else Done(previous, s)
  }

  function IdIf(present: bool, s: seq<byte>, previous: seq<byte>): (p: Parsed<seq<byte>>)
    ensures p.Done? ==> |p.rest| <= |s|
  {
    if present then Take(s, 16) else Done(previous, s)
  }

  /** Sequence number, capture thread and processor travel together. */
  datatype Capture = Capture(sequence: u32, thread: u64, processor: u32)

  /** `n` sequence numbers on, keeping 32 bits. */
  function Advanced(sequence: u32, n: nat): u32 {
    (sequence + n) % TWO_32
  }

  function CaptureFields(present: bool, s: seq<byte>, h: Header, metadataId: u32): (p: Parsed<Capture>)
    ensures p.Done? ==> |p.rest| <= |s|
  {
    if present then
      var (delta, s1) :- VarUInt32(s);
      var (thread, s2) :- VarUInt64(s1);
      var (processor, s3) :- VarUInt32(s2);
      Done(Capture(Advanced(h.sequence, delta + 1), thread, processor), s3)
    else
      Done(Capture(if metadataId != 0 then Advanced(h.sequence, 1) else h.sequence,
                   h.captureThread, h.processor), s)
  }

  /** The first fields of a row, over the header carried from the row before. */
  function ReadOrigin(flags: byte, s: seq<byte>, h: Header): (p: Parsed<Header>)
    ensures p.Done? ==> |p.rest| <= |s|
  {
    var (metadataId, s1) :- Var32If(Has(flags, METADATA_ID), s, h.metadataId);
    var (c, s2) :- CaptureFields(Has(flags, CAPTURE_THREAD_AND_SEQUENCE), s1, h, metadataId);
    Done(h.(metadataId := metadataId, sequence := c.sequence, captureThread := c.thread, processor := c.processor), s2)
  }

  /** Thread, stack, and the timestamp delta, which is always present. */
  function ReadMoment(flags: byte, s: seq<byte>, h: Header): (p: Parsed<Header>)
    ensures p.Done? ==> |p.rest| < |s|
  {
    var (threadId, s1) :- Var64If(Has(flags, THREAD_ID), s, h.threadId);
    var (stackId, s2) :- Var32If(Has(flags, STACK_ID), s1, h.stackId);
    var (delta, s3) :- VarUInt64(s2);
    Done(h.(threadId := threadId, stackId := stackId, timestamp := (h.timestamp + delta) % TWO_64), s3)
  }

  function ReadTail(flags: byte, s: seq<byte>, h: Header): (p: Parsed<Header>)
    ensures p.Done? ==> |p.rest| <= |s|
  {
    var (activityId, s1) :- IdIf(Has(flags, ACTIVITY_ID), s, h.activityId);
    var (relatedId, s2) :- IdIf(Has(flags, RELATED_ACTIVITY_ID), s1, h.relatedId);
    var (payloadSize, s3) :- Var32If(Has(flags, PAYLOAD_SIZE), s2, h.payloadSize);
    Done(h.(activityId := activityId, relatedId := relatedId, sorted := Has(flags, IS_SORTED),
            payloadSize := payloadSize), s3)
  }

  function CompressedHeader(h: Header, s: seq<byte>): (p: Parsed<Header>)
    ensures p.Done? ==> |p.rest| + 2 <= |s|
  {
    var (flags, s0) :- U8(s);
    var (h1, s1) :- ReadOrigin(flags, s0, h);
    var (h2, s2) :- ReadMoment(flags, s1, h1);
    ReadTail(flags, s2, h2)
  }

  /** The first fields of the fixed 80-byte header. A set high bit in the metadata id means *not* sorted. */
  function UncompressedOrigin(s: seq<byte>, h: Header): (p: Parsed<Header>)
    ensures p.Done? ==> |p.rest| + 28 == |s|
  {
    var (_, s0) :- U32(s);
    var (rawId, s1) :- U32(s0);
    var (sequence, s2) :- U32(s1);
    var (threadId, s3) :- U64(s2);
    var (captureThread, s4) :- U64(s3);
    Done(h.(metadataId := rawId % 0x8000_0000, sorted := rawId < 0x8000_0000, sequence := sequence,
            threadId := threadId, captureThread := captureThread), s4)
  }

  function UncompressedMoment(s: seq<byte>, h: Header): (p: Parsed<Header>)
    ensures p.Done? ==> |p.rest| + 16 == |s|
  {
    var (processor, s1) :- U32(s);
    var (stackId, s2) :- U32(s1);
    var (timestamp, s3) :- U64(s2);
    Done(h.(processor := processor, stackId := stackId, timestamp := timestamp), s3)
  }

  function UncompressedTail(s: seq<byte>, h: Header): (p: Parsed<Header>)
    ensures p.Done? ==> |p.rest| + 36 == |s|
  {
    var (activityId, s1) :- Take(s, 16);
    var (relatedId, s2) :- Take(s1, 16);
    var (payloadSize, s3) :- U32(s2);
    Done(h.(activityId := activityId, relatedId := relatedId, payloadSize := payloadSize), s3)
  }

  function UncompressedHeader(h: Header, s: seq<byte>): (p: Parsed<Header>)
    ensures p.Done? ==> |p.rest| + 80 == |s|
  {
    var (h1, s1) :- UncompressedOrigin(s, h);
    var (h2, s2) :- UncompressedMoment(s1, h1);
    UncompressedTail(s2, h2)
  }

  // ----- Encoding

  /** Which fields of a row are written out rather than carried over. */
  datatype Presence = Presence(
    metadataId: bool, capture: bool, threadId: bool, stackId: bool, activityId: bool, relatedId: bool,
    payloadSize: bool)

  function Pack(bits: seq<bool>): nat {
    if bits == [] then 0 else (if bits[0] then 1 else 0) + 2 * Pack(bits[1..])
  }

  function FlagBits(p: Presence, sorted: bool): seq<bool> {
    [p.metadataId, p.capture, p.threadId, p.stackId, p.activityId, p.relatedId, sorted, p.payloadSize]
  }

  function Flags(p: Presence, sorted: bool): byte {
    PackBound(FlagBits(p, sorted), 256);
    Pack(FlagBits(p, sorted))
  }

  lemma {:induction false} PackBound(bits: seq<bool>, bound: nat)
    requires |bits| <= 8 && bound == [1, 2, 4, 8, 16, 32, 64, 128, 256][|bits|]
    ensures Pack(bits) < bound
  {
    if bits == [] {
    } else {
      PackBound(bits[1..], bound / 2);
    }
  }

  lemma {:induction false} HasPacked(bits: seq<bool>, i: nat)
    requires i < |bits|
    ensures Has(Pack(bits), i) == bits[i]
  {
    if i == 0 {
    } else {
      HasPacked(bits[1..], i - 1);
      assert Pack(bits) / 2 == Pack(bits[1..]);
    }
  }

  /** A header a row can have: identifiers are 16 bytes. */
  predicate WellFormed(h: Header) {
    |h.activityId| == 16 && |h.relatedId| == 16
  }

  /** A bit may be left clear only where the row agrees with what the reader would carry over. */
  predicate Legal(prev: Header, h: Header, p: Presence) {
    && (p.metadataId || h.metadataId == prev.metadataId)
    && (p.capture || (&& h.captureThread == prev.captureThread
                      && h.processor == prev.processor
                      && h.sequence == if h.metadataId != 0 then (prev.sequence + 1) % TWO_32 else prev.sequence))
    && (p.threadId || h.threadId == prev.threadId)
    && (p.stackId || h.stackId == prev.stackId)
    && (p.activityId || h.activityId == prev.activityId)
    && (p.relatedId || h.relatedId == prev.relatedId)
    && (p.payloadSize || h.payloadSize == prev.payloadSize)
  }

  function PutVarIf(present: bool, v: nat, k: seq<byte>): seq<byte> {
    if present then PutVar(v, k) else k
  }

  function PutIdIf(present: bool, id: seq<byte>, k: seq<byte>): seq<byte> {
    if present then id + k else k
  }

  function PutCapture(present: bool, prev: Header, h: Header, k: seq<byte>): seq<byte> {
    if present then
      PutVar((h.sequence - prev.sequence - 1) % TWO_32, PutVar(h.captureThread, PutVar(h.processor, k)))
    else k
  }

  /** The fields after the timestamp. */
  function PutTail(h: Header, p: Presence, k: seq<byte>): seq<byte> {
    PutIdIf(p.activityId, h.activityId, PutIdIf(p.relatedId, h.relatedId, PutVarIf(p.payloadSize, h.payloadSize, k)))
  }

  function PutMoment(prev: Header, h: Header, p: Presence, k: seq<byte>): seq<byte> {
    PutVarIf(p.threadId, h.threadId,
      PutVarIf(p.stackId, h.stackId,
        PutVar((h.timestamp - prev.timestamp) % TWO_64, k)))
  }

  function PutOrigin(prev: Header, h: Header, p: Presence, k: seq<byte>): seq<byte> {
    PutVarIf(p.metadataId, h.metadataId, PutCapture(p.capture, prev, h, k))
  }

  function PutHeader(prev: Header, h: Header, p: Presence, k: seq<byte>): (s: seq<byte>)
    ensures s != []
  {
    PutU8(Flags(p, h.sorted), PutOrigin(prev, h, p, PutMoment(prev, h, p, PutTail(h, p, k))))
  }

  /** The fixed 80-byte header: a size no reader looks at, and a high bit in the metadata id where a row is not sorted. */
  function PutUncompressed(h: Header, size: u32, k: seq<byte>): (s: seq<byte>)
    requires h.metadataId < 0x8000_0000
  {
    PutU32(size, PutU32(h.metadataId + (if h.sorted then 0 else 0x8000_0000), PutU32(h.sequence, PutU64(h.threadId,
      PutU64(h.captureThread, PutU32(h.processor, PutU32(h.stackId, PutU64(h.timestamp,
        h.activityId + (h.relatedId + PutU32(h.payloadSize, k))))))))))
  }

  // ----- Decoding undoes encoding

  lemma FlagsHave(p: Presence, sorted: bool)
    ensures forall i :: 0 <= i < 8 ==> Has(Flags(p, sorted), i) == FlagBits(p, sorted)[i]
  {
    hide Has, Pack;
    forall i | 0 <= i < 8
      ensures Has(Flags(p, sorted), i) == FlagBits(p, sorted)[i]
    {
      HasPacked(FlagBits(p, sorted), i);
    }
  }

  lemma Var32IfUndoes(present: bool, v: u32, previous: u32, k: seq<byte>)
    requires present || v == previous
    ensures Var32If(present, PutVarIf(present, v, k), previous) == Done(v, k)
  {
    VarUInt32UndoesPut(v, k);
  }

  lemma Var64IfUndoes(present: bool, v: u64, previous: u64, k: seq<byte>)
    requires present || v == previous
    ensures Var64If(present, PutVarIf(present, v, k), previous) == Done(v, k)
  {
    VarUInt64UndoesPut(v, k);
  }

  lemma IdIfUndoes(present: bool, id: seq<byte>, previous: seq<byte>, k: seq<byte>)
    requires |id| == 16 && (present || id == previous)
    ensures IdIf(present, PutIdIf(present, id, k), previous) == Done(id, k)
  {
    TakeUndoesAppend(id, k);
  }

  /** Sequence numbers wrap at 32 bits; a stored delta of zero stands for one step. */
  lemma SequenceWraps(previous: u32, next: u32)
    ensures (previous + (next - previous - 1) % TWO_32 + 1) % TWO_32 == next
  {
  }

  /** Timestamps wrap at 64 bits, so a row earlier than its predecessor is still representable. */
  lemma TimestampWraps(previous: u64, next: u64)
    ensures (previous + (next - previous) % TWO_64) % TWO_64 == next
  {
  }

  lemma CaptureUndoes(present: bool, prev: Header, h: Header, p: Presence, k: seq<byte>)
    requires Legal(prev, h, p) && present == p.capture
    ensures CaptureFields(present, PutCapture(present, prev, h, k), prev, h.metadataId)
         == Done(Capture(h.sequence, h.captureThread, h.processor), k)
  {
    hide VarUInt32, VarUInt64, PutVar;
    if present {
      var delta: u32 := (h.sequence - prev.sequence - 1) % TWO_32;
      SequenceWraps(prev.sequence, h.sequence);
      VarUInt32UndoesPut(h.processor, k);
      VarUInt64UndoesPut(h.captureThread, PutVar(h.processor, k));
      VarUInt32UndoesPut(delta, PutVar(h.captureThread, PutVar(h.processor, k)));
    }
  }

  lemma OriginUndoes(flags: byte, prev: Header, h: Header, p: Presence, k: seq<byte>)
    requires Legal(prev, h, p)
    requires Has(flags, METADATA_ID) == p.metadataId && Has(flags, CAPTURE_THREAD_AND_SEQUENCE) == p.capture
    ensures ReadOrigin(flags, PutOrigin(prev, h, p, k), prev)
         == Done(prev.(metadataId := h.metadataId, sequence := h.sequence, captureThread := h.captureThread,
                       processor := h.processor), k)
  {
    hide Has, Var32If, CaptureFields, PutVarIf, PutCapture;
    CaptureUndoes(p.capture, prev, h, p, k);
    Var32IfUndoes(p.metadataId, h.metadataId, prev.metadataId, PutCapture(p.capture, prev, h, k));
  }

  lemma MomentUndoes(flags: byte, prev: Header, carried: Header, h: Header, p: Presence, k: seq<byte>)
    requires Legal(prev, h, p)
    requires carried.threadId == prev.threadId && carried.stackId == prev.stackId
    requires carried.timestamp == prev.timestamp
    requires Has(flags, THREAD_ID) == p.threadId && Has(flags, STACK_ID) == p.stackId
    ensures ReadMoment(flags, PutMoment(prev, h, p, k), carried)
         == Done(carried.(threadId := h.threadId, stackId := h.stackId, timestamp := h.timestamp), k)
  {
    hide Has, VarUInt64, PutVar, Var32If, Var64If, PutVarIf;
    var delta: u64 := (h.timestamp - prev.timestamp) % TWO_64;
    TimestampWraps(prev.timestamp, h.timestamp);
    VarUInt64UndoesPut(delta, k);
    Var32IfUndoes(p.stackId, h.stackId, prev.stackId, PutVar(delta, k));
    Var64IfUndoes(p.threadId, h.threadId, prev.threadId, PutVarIf(p.stackId, h.stackId, PutVar(delta, k)));
  }

  lemma TailUndoes(flags: byte, prev: Header, carried: Header, h: Header, p: Presence, k: seq<byte>)
    requires WellFormed(h) && Legal(prev, h, p)
    requires carried.activityId == prev.activityId && carried.relatedId == prev.relatedId
    requires carried.payloadSize == prev.payloadSize
    requires Has(flags, ACTIVITY_ID) == p.activityId && Has(flags, RELATED_ACTIVITY_ID) == p.relatedId
    requires Has(flags, IS_SORTED) == h.sorted && Has(flags, PAYLOAD_SIZE) == p.payloadSize
    ensures ReadTail(flags, PutTail(h, p, k), carried)
         == Done(carried.(activityId := h.activityId, relatedId := h.relatedId, sorted := h.sorted,
                          payloadSize := h.payloadSize), k)
  {
    hide Has, Var32If, IdIf, PutVarIf, PutIdIf;
    var s2 := PutVarIf(p.payloadSize, h.payloadSize, k);
    Var32IfUndoes(p.payloadSize, h.payloadSize, prev.payloadSize, k);
    IdIfUndoes(p.relatedId, h.relatedId, prev.relatedId, s2);
    IdIfUndoes(p.activityId, h.activityId, prev.activityId, PutIdIf(p.relatedId, h.relatedId, s2));
  }

  /** An uncompressed row carries nothing over: it reads back whatever came before it. */
  lemma UncompressedUndoesPut(prev: Header, h: Header, size: u32, k: seq<byte>)
    requires WellFormed(h) && h.metadataId < 0x8000_0000
    ensures UncompressedHeader(prev, PutUncompressed(h, size, k)) == Done(h, k)
  {
    hide U32, U64, Take, PutU32, PutU64;
    var s9 := PutU32(h.payloadSize, k);
    var s8 := h.relatedId + s9;
    var s7 := h.activityId + s8;
    var s6 := PutU64(h.timestamp, s7);
    var s5 := PutU32(h.stackId, s6);
    var s4 := PutU32(h.processor, s5);
    OriginUndoesUncompressed(prev, h, size, s4);
    U32UndoesPut(h.processor, s5);
    U32UndoesPut(h.stackId, s6);
    U64UndoesPut(h.timestamp, s7);
    TakeUndoesAppend(h.activityId, s8);
    TakeUndoesAppend(h.relatedId, s9);
    U32UndoesPut(h.payloadSize, k);
  }

  lemma OriginUndoesUncompressed(prev: Header, h: Header, size: u32, k: seq<byte>)
    requires h.metadataId < 0x8000_0000
    ensures UncompressedOrigin(PutU32(size, PutU32(h.metadataId + (if h.sorted then 0 else 0x8000_0000),
                                 PutU32(h.sequence, PutU64(h.threadId, PutU64(h.captureThread, k))))), prev)
         == Done(prev.(metadataId := h.metadataId, sorted := h.sorted, sequence := h.sequence, threadId := h.threadId,
                       captureThread := h.captureThread), k)
  {
    hide U32, U64, PutU32, PutU64;
    var s3 := PutU64(h.captureThread, k);
    var s2 := PutU64(h.threadId, s3);
    var s1 := PutU32(h.sequence, s2);
    var rawId: u32 := h.metadataId + (if h.sorted then 0 else 0x8000_0000);
    U32UndoesPut(size, PutU32(rawId, s1));
    U32UndoesPut(rawId, s1);
    U32UndoesPut(h.sequence, s2);
    U64UndoesPut(h.threadId, s3);
    U64UndoesPut(h.captureThread, k);
  }

  /** The flags by name. */
  lemma FlagsAreNamed(p: Presence, sorted: bool)
    ensures var flags := Flags(p, sorted);
            && Has(flags, METADATA_ID) == p.metadataId && Has(flags, CAPTURE_THREAD_AND_SEQUENCE) == p.capture
            && Has(flags, THREAD_ID) == p.threadId && Has(flags, STACK_ID) == p.stackId
            && Has(flags, ACTIVITY_ID) == p.activityId && Has(flags, RELATED_ACTIVITY_ID) == p.relatedId
            && Has(flags, IS_SORTED) == sorted && Has(flags, PAYLOAD_SIZE) == p.payloadSize
  {
    hide Has, Flags;
    FlagsHave(p, sorted);
  }

  /** A row header written with any legal choice of presence bits is read back, field for field. */
  lemma HeaderUndoesPut(prev: Header, h: Header, p: Presence, k: seq<byte>)
    requires WellFormed(h) && Legal(prev, h, p)
    ensures CompressedHeader(prev, PutHeader(prev, h, p, k)) == Done(h, k)
  {
    hide U8, PutU8, Has, Flags, ReadOrigin, ReadMoment, ReadTail, PutOrigin, PutMoment, PutTail, Legal, WellFormed;
    var flags := Flags(p, h.sorted);
    var s2 := PutTail(h, p, k);
    var s1 := PutMoment(prev, h, p, s2);
    FlagsAreNamed(p, h.sorted);
    U8UndoesPut(flags, PutOrigin(prev, h, p, s1));
    OriginUndoes(flags, prev, h, p, s1);
    var h1 := prev.(metadataId := h.metadataId, sequence := h.sequence, captureThread := h.captureThread,
                    processor := h.processor);
    MomentUndoes(flags, prev, h1, h, p, s2);
    var h2 := h1.(threadId := h.threadId, stackId := h.stackId, timestamp := h.timestamp);
    TailUndoes(flags, prev, h2, h, p, k);
  }
}
