/**
 What a stream that stops short can do to the parser: nothing but end in an I/O error after whole blocks. It
 is never mistaken for a clean end, and never yields a batch or a record the full stream does not have.
 */
module Truncation {
  import opened Wire
  import Framing
  import opened RowWriter
  import opened Blocks
  import opened TraceWriter
  import opened RoundTrip

  /**
   `p` is what a decoding that gave `q` gives once `x` follows the bytes it saw: the same value and the same
   structural error. Only running out of bytes can turn out differently.
   */
  ghost predicate Extends<T>(q: Parsed<T>, p: Parsed<T>, x: seq<byte>) {
    match q
    case Done(v, k) => p == Done(v, k + x)
    case Failed(e) => e != Io ==> p == q
  }

  /** What is left to the next step. */
  function Left<T>(q: Parsed<T>): seq<byte> { if q.Done? then q.rest else [] }

  lemma TakeExtends(t: seq<byte>, x: seq<byte>, n: nat)
    ensures Extends(Framing.Take(t, n), Framing.Take(t + x, n), x)
  {
    if n <= |t| {
      assert (t + x)[..n] == t[..n];
      assert (t + x)[n..] == t[n..] + x;
    }
  }

  lemma U8Extends(t: seq<byte>, x: seq<byte>)
    ensures Extends(Framing.U8(t), Framing.U8(t + x), x)
  {
    hide Framing.Take;
    TakeExtends(t, x, 1);
  }

  lemma I32Extends(t: seq<byte>, x: seq<byte>)
    ensures Extends(Framing.I32(t), Framing.I32(t + x), x)
  {
    hide Framing.Take, FromLE, Signed;
    PowersOf256();
    TakeExtends(t, x, 4);
  }

  lemma ExpectTagExtends(t: seq<byte>, x: seq<byte>, tag: byte, what: Structure)
    ensures Extends(Framing.ExpectTag(t, tag, what), Framing.ExpectTag(t + x, tag, what), x)
  {
    hide Framing.U8;
    U8Extends(t, x);
  }

  lemma ReadTypeExtends(t: seq<byte>, x: seq<byte>)
    ensures Extends(Framing.ReadType(t), Framing.ReadType(t + x), x)
  {
    hide Framing.Take, Framing.I32, Framing.ExpectTag;
    ExpectTagExtends(t, x, Framing.BEGIN_PRIVATE_OBJECT, SerializationTypeTag);
    var t1 := Left(Framing.ExpectTag(t, Framing.BEGIN_PRIVATE_OBJECT, SerializationTypeTag));
    ExpectTagExtends(t1, x, Framing.NULL_REFERENCE, SerializationTypesTypeTag);
    var t2 := Left(Framing.ExpectTag(t1, Framing.NULL_REFERENCE, SerializationTypesTypeTag));
    I32Extends(t2, x);
    var t3 := Left(Framing.I32(t2));
    I32Extends(t3, x);
    var t4 := Left(Framing.I32(t3));
    I32Extends(t4, x);
    var length := Framing.I32(t4);
    if length.Done? && 0 <= length.value <= Framing.MAX_TYPE_NAME {
      TakeExtends(length.rest, x, length.value);
      var t6 := Left(Framing.Take(length.rest, length.value));
      ExpectTagExtends(t6, x, Framing.END_OBJECT, EndOfSerializationType);
    }
  }

  lemma ObjectHeaderExtends(t: seq<byte>, x: seq<byte>)
    ensures Extends(Framing.ReadObjectHeader(t), Framing.ReadObjectHeader(t + x), x)
  {
    hide Framing.U8, Framing.ReadType;
    U8Extends(t, x);
    ReadTypeExtends(Left(Framing.U8(t)), x);
  }

  lemma SizedExtends(t: seq<byte>, x: seq<byte>, pos: nat)
    ensures Extends(Framing.ReadSized(t, pos), Framing.ReadSized(t + x, pos), x)
  {
    hide Framing.Take, Framing.I32, Framing.Padding;
    I32Extends(t, x);
    var size := Framing.I32(t);
    if size.Done? && 0 <= size.value <= Framing.MAX_BLOCK_SIZE {
      TakeExtends(size.rest, x, Framing.Padding(pos + 4));
      TakeExtends(Left(Framing.Take(size.rest, Framing.Padding(pos + 4))), x, size.value);
    }
  }

  lemma BodyExtends(kind: Kind, t: seq<byte>, x: seq<byte>, pos: nat)
    ensures Extends(ReadBody(kind, t, pos), ReadBody(kind, t + x, pos), x)
  {
    hide Framing.Take, Framing.ReadSized, Framing.ExpectTag;
    TakeExtends(t, x, TRACE_BODY_SIZE);
    SizedExtends(t, x, pos);
    var t1 := Left(if kind.TraceObject? then Framing.Take(t, TRACE_BODY_SIZE) else Framing.ReadSized(t, pos));
    ExpectTagExtends(t1, x, Framing.END_OBJECT, EndOfBlock);
  }

  /** Objects that teach what they have to before their last byte is read. */
  predicate Foretells(b: Block) {
    b.item.TraceItem? || IsSequencePoint(b)
  }

  /** A call that fails only for want of bytes inside a block: what is known is what was, or what the block says. */
  predicate RanOut(p: Progress, b: Block, k: Knowledge) {
    p == Failure(Io, k) || (Foretells(b) && p == Failure(Io, KnowAfter(b, k)))
  }

  /** What a block cut short has taught is nothing, or all it has to say. */
  lemma BegunIsMeant(b: Block, k: Knowledge, t: seq<byte>, x: seq<byte>, pos: nat, rest: seq<byte>)
    requires BlockOk(b, k.trace, k.collectStacks)
    requires t + x == PutBody(b, pos, k.trace, k.collectStacks, rest)
    ensures var known := Begun(KindOf(b.head.typeName), t, k);
            known == k || (Foretells(b) && known == KnowAfter(b, k))
  {
    hide KindOf, Ascii, ParseTrace, PutTrace, Framing.PutSized;
    KindIsItsName(b, k.collectStacks);
    if b.item.TraceItem? && |t| >= TRACE_BODY_SIZE {
      ContentLength(b.item, k.trace);
      TraceUndoesPut(b.item.info);
      assert t[..TRACE_BODY_SIZE] == (t + x)[..TRACE_BODY_SIZE] == Content(b.item, k.trace);
    }
  }

  /** A block of a written stream with its end missing, or with only what follows it cut. */
  lemma BlockCutShort(b: Block, pos: nat, k: Knowledge, rest: seq<byte>, t: seq<byte>, x: seq<byte>)
    returns (t': seq<byte>)
    requires BlockOk(b, k.trace, k.collectStacks) && !k.finished
    requires t + x == PutBlock(b, pos, k.trace, k.collectStacks, rest)
    ensures RanOut(NextEvents(t, pos, k), b, k) ||
            (&& t' + x == rest
             && |t| == BlockLength(b, pos, k.trace, k.collectStacks) + |t'|
             && NextEvents(t, pos, k)
                == Resume(Meaning(b, k), t', pos + BlockLength(b, pos, k.trace, k.collectStacks), k))
  {
    hide KindOf, Content, Absorb, Meaning, Framing.ReadObjectHeader, Framing.PutObjectHeader, ReadBody, PutBody,
      BlockLength, Extends, Begun, KnowAfter;
    BlockHeadOk(b, k);
    var bodyPos := pos + 16 + |b.head.typeName|;
    var s1 := PutBody(b, bodyPos, k.trace, k.collectStacks, rest);
    Framing.ObjectHeaderUndoesPut(b.head, s1);
    BlockLengthSplits(b, pos, k.trace, k.collectStacks, rest);
    BodyUndoesPut(b, bodyPos, k, rest);
    ContentMeans(b, k);
    var header := Framing.ReadObjectHeader(t);
    ObjectHeaderExtends(t, x);
    ExtendsInto(header, t, x, s1, Some(b.head));
    t' := [];
    if header.Done? {
      BodyExtends(KindOf(b.head.typeName), header.rest, x, bodyPos);
      var body := ReadBody(KindOf(b.head.typeName), header.rest, bodyPos);
      ExtendsInto(body, header.rest, x, rest, Content(b.item, k.trace));
      BegunIsMeant(b, k, header.rest, x, bodyPos, rest);
      if body.Done? {
        t' := body.rest;
      }
    }
  }

  /** If the full decoding succeeds, the cut one either agrees with it or runs out. */
  lemma ExtendsInto<T>(q: Parsed<T>, t: seq<byte>, x: seq<byte>, rest: seq<byte>, v: T)
    requires Extends(q, Done(v, rest), x)
    ensures q == Failed(Io) || (q.Done? && q.value == v && q.rest + x == rest)
  {
  }

  /** Of a stream without blocks a strict prefix is empty. */
  lemma NothingIsWritten(pos: nat, k: Knowledge, t: seq<byte>, x: seq<byte>)
    requires StreamOk([], k.trace, k.collectStacks)
    requires x != [] && t + x == PutStream([], pos, k.trace, k.collectStacks)
    ensures t == []
  {
  }

  lemma NothingRunsOut(pos: nat, k: Knowledge)
    requires !k.finished
    ensures NextEvents([], pos, k) == Failure(Io, k)
  {
    hide ReadObject;
  }

  /** A call whose outcome two positions share leads to the same run. */
  lemma RunFollows(s: seq<byte>, pos: nat, k: Knowledge, s': seq<byte>, pos': nat, k': Knowledge)
    requires NextEvents(s, pos, k) == NextEvents(s', pos', k') && pos + |s| == pos' + |s'|
    ensures Run(s, pos, k) == Run(s', pos', k')
  {
    hide NextEvents;
  }

  /** What is known where a stream breaks off inside block `m`: all before it, and what that block foretells. */
  ghost predicate KnownAtBreak(known: Knowledge, blocks: seq<Block>, k: Knowledge, m: nat)
    requires m <= |blocks|
  {
    || known == KnowAfterAll(blocks[..m], k)
    || (m < |blocks| && Foretells(blocks[m]) && known == KnowAfterAll(blocks[..m + 1], k))
  }

  lemma BreakLater(known: Knowledge, blocks: seq<Block>, k: Knowledge, m: nat)
    requires blocks != [] && m <= |blocks[1..]| && KnownAtBreak(known, blocks[1..], KnowAfter(blocks[0], k), m)
    ensures KnownAtBreak(known, blocks, k, m + 1)
  {
    hide KnowAfter, Foretells;
    assert blocks[..m + 1][1..] == blocks[1..][..m];
    if m < |blocks[1..]| {
      assert blocks[..m + 2][1..] == blocks[1..][..m + 1];
    }
  }

  lemma BreakHere(known: Knowledge, blocks: seq<Block>, k: Knowledge)
    requires blocks != [] && (known == k || (Foretells(blocks[0]) && known == KnowAfter(blocks[0], k)))
    ensures KnownAtBreak(known, blocks, k, 0)
  {
    hide KnowAfter, Foretells;
    assert blocks[..1][1..] == [] && blocks[..0] == [];
    assert KnowAfterAll([], KnowAfter(blocks[0], k)) == KnowAfter(blocks[0], k);
  }

  /**
   A strict prefix of a written stream: some whole number `m` of blocks is read as in the full run, and then the
   run fails with an I/O error, knowing exactly what those blocks mean and at most what the next one foretells.
   */
  lemma {:induction false} PrefixRunsOut(blocks: seq<Block>, pos: nat, k: Knowledge, t: seq<byte>, x: seq<byte>)
    returns (m: nat, known: Knowledge)
    requires StreamOk(blocks, k.trace, k.collectStacks) && !k.finished
    requires x != [] && t + x == PutStream(blocks, pos, k.trace, k.collectStacks)
    ensures m <= |blocks| && KnownAtBreak(known, blocks, k, m)
    ensures Run(t, pos, k) == Trail(Batches(blocks[..m]), Failure(Io, known))
    decreases |blocks|
  {
    hide Run, StreamOk, PutStream, BlockOk, TraceAfter, Meaning, KnowAfter, NextEvents, PutBlock, BlockLength, EventsOf,
      Emits, KnownAtBreak, Foretells;
    m, known := 0, k;
    if blocks == [] {
      NothingIsWritten(pos, k, t, x);
      NothingRunsOut(pos, k);
      RunFirst(t, pos, k);
      AtTheVeryEnd(k);
    } else {
      var b, k1 := blocks[0], KnowAfter(blocks[0], k);
      StreamSplits(blocks, pos, k.trace, k.collectStacks);
      var pos1 := pos + BlockLength(b, pos, k.trace, k.collectStacks);
      KnowAfterKeeps(b, k);
      var rest := PutStream(blocks[1..], pos1, k1.trace, k1.collectStacks);
      var t' := BlockCutShort(b, pos, k, rest, t, x);
      RunFirst(t, pos, k);
      if RanOut(NextEvents(t, pos, k), b, k) {
        known := NextEvents(t, pos, k).knowledge;
        BreakHere(known, blocks, k);
      } else {
        m, known := PrefixRunsOut(blocks[1..], pos1, k1, t', x);
        BreakLater(known, blocks, k, m);
        m := m + 1;
        assert blocks[..m][1..] == blocks[1..][..m - 1];
        if !Emits(b) {
          RunFollows(t, pos, k, t', pos1, k1);
        }
      }
    }
  }

  lemma AtTheVeryEnd(k: Knowledge)
    ensures KnownAtBreak(k, [], k, 0)
  {
  }

  /** Batches come in the order of their blocks, so those of the first `m` blocks are a prefix of all. */
  lemma {:induction false} BatchesOfPrefix(blocks: seq<Block>, m: nat)
    requires m <= |blocks|
    ensures Batches(blocks[..m]) <= Batches(blocks)
    decreases m
  {
    hide EventsOf, Emits;
    if m == 0 {
    } else {
      BatchesOfPrefix(blocks[1..], m - 1);
      assert blocks[..m][1..] == blocks[1..][..m - 1];
    }
  }

  /** The same for the batches alone: a prefix of the full run's, then an error, never a clean end. */
  lemma PrefixNeverInvents(blocks: seq<Block>, pos: nat, k: Knowledge, t: seq<byte>, x: seq<byte>)
    requires StreamOk(blocks, k.trace, k.collectStacks) && !k.finished
    requires x != [] && t + x == PutStream(blocks, pos, k.trace, k.collectStacks)
    ensures Run(t, pos, k).last.Failure? && Run(t, pos, k).last.error == Io
    ensures Run(t, pos, k).batches <= Run(t + x, pos, k).batches
    ensures exists m | 0 <= m <= |blocks| ::
              Run(t, pos, k).last.knowledge.metadata == BindRecords(AllRecords(blocks[..m]), k.metadata)
  {
    hide Run, PutStream, KnowAfterAll, BindRecords, AllRecords, Batches, Foretells;
    var m, known := PrefixRunsOut(blocks, pos, k, t, x);
    RunUndoesPut(blocks, pos, k);
    BatchesOfPrefix(blocks, m);
    RegistryAfter(blocks[..m], k);
    if m < |blocks| {
      RegistryAfter(blocks[..m + 1], k);
    }
  }
}
