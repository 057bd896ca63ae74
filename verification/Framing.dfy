/**
 The FastSerialization envelope (src/nettrace/fastserial.rs) over a byte stream, as functions from the bytes
 still to come. The absolute offset a padding computation needs is passed in.
 */
module Framing {
  import opened Wire
  import Decode

  const NULL_REFERENCE: byte := 1
  const BEGIN_PRIVATE_OBJECT: byte := 5
  const END_OBJECT: byte := 6

  /** The largest size a block may declare: 256 MiB. */
  const MAX_BLOCK_SIZE: int := 256 * 1024 * 1024
  const MAX_TYPE_NAME: int := 1024

  datatype ObjectHeader = ObjectHeader(typeName: seq<byte>, version: i32, minReaderVersion: i32)

  function Magic(): (m: seq<byte>)
    ensures |m| == 8
  {
    Ascii("Nettrace")
  }

  function SerializerName(): (m: seq<byte>)
    ensures |m| == 20
  {
    Ascii("!FastSerialization.1")
  }

  // ----- Reading

  /** Exactly `n` bytes, or an I/O error when the stream ends first. */
  function Take(s: seq<byte>, n: nat): (p: Parsed<seq<byte>>)
    ensures p.Done? ==> |p.value| == n && p.value + p.rest == s
    ensures p.Failed? ==> |s| < n && p == Failed(Io)
  {
    if |s| < n then Failed(Io) else Done(s[..n], s[n..])
  }

  function U8(s: seq<byte>): (p: Parsed<byte>)
    ensures p.Done? ==> |p.rest| + 1 == |s|
  {
    var (b, k) :- Take(s, 1);
    Done(b[0], k)
  }

  function I32(s: seq<byte>): (p: Parsed<i32>)
    ensures p.Done? ==> |p.rest| + 4 == |s|
  {
    PowersOf256();
    var (b, k) :- Take(s, 4);
    Done(Signed(FromLE(b), TWO_32), k)
  }

  function ExpectTag(s: seq<byte>, tag: byte, what: Structure): (p: Parsed<()>)
    ensures p.Done? ==> |p.rest| + 1 == |s|
    ensures p == if s == [] then Failed(Io) else if s[0] != tag then Failed(Unexpected(what)) else Done((), s[1..])
  {
    var (b, k) :- U8(s);
    if b != tag then Failed(Unexpected(what)) else Done((), k)
  }

  function ReadPreamble(s: seq<byte>): (p: Parsed<()>)
    ensures p.Done? ==> |s| == 32 + |p.rest|
  {
    var (magic, s1) :- Take(s, 8);
    if magic != Magic() then Failed(Unexpected(StreamMagic))
    else
      var (length, s2) :- I32(s1);
      if length != 20 then Failed(Unexpected(SerializerHeaderLength))
      else
        var (header, s3) :- Take(s2, 20);
        if header != SerializerName() then Failed(Unexpected(SerializerHeader)) else Done((), s3)
  }

  /** The part of an object header after its first tag. */
  function ReadType(s: seq<byte>): (p: Parsed<ObjectHeader>)
    ensures p.Done? ==> |p.rest| < |s|
  {
    var (_, s1) :- ExpectTag(s, BEGIN_PRIVATE_OBJECT, SerializationTypeTag);
    var (_, s2) :- ExpectTag(s1, NULL_REFERENCE, SerializationTypesTypeTag);
    var (version, s3) :- I32(s2);
    var (minReaderVersion, s4) :- I32(s3);
    var (length, s5) :- I32(s4);
    if !(0 <= length <= MAX_TYPE_NAME) then Failed(Unexpected(TypeNameLength))
    else
      var (name, s6) :- Take(s5, length);
      var (_, s7) :- ExpectTag(s6, END_OBJECT, EndOfSerializationType);
      Done(ObjectHeader(name, version, minReaderVersion), s7)
  }

  /** The next object's header, or nothing at the null reference that ends a stream. */
  function ReadObjectHeader(s: seq<byte>): (p: Parsed<Option<ObjectHeader>>)
    ensures p.Done? ==> |p.rest| < |s|
  {
    var (tag, s1) :- U8(s);
    if tag == NULL_REFERENCE then Done(None, s1)
    else if tag != BEGIN_PRIVATE_OBJECT then Failed(Unexpected(ObjectTag))
    else
      var (header, s2) :- ReadType(s1);
      Done(Some(header), s2)
  }

  /** How far `pos` is from the next multiple of four. */
  function Padding(pos: nat): (n: nat)
    ensures n < 4 && (pos + n) % 4 == 0
  {
    (4 - pos % 4) % 4
  }

  /** A size, padding to a multiple of four from the start of the stream, then that many bytes. */
  function ReadSized(s: seq<byte>, pos: nat): (p: Parsed<seq<byte>>)
    ensures p.Done? ==> |p.rest| <= |s|
  {
    var (size, s1) :- I32(s);
    if !(0 <= size <= MAX_BLOCK_SIZE) then Failed(Unexpected(BlockSize))
    else
      var (_, s2) :- Take(s1, Padding(pos + 4));
      Take(s2, size)
  }

  // ----- Writing

  // The format's own bytes stand here: 1 is a null reference, 5 begins an object, 6 ends one.

  function PutPreamble(k: seq<byte>): seq<byte> {
    Ascii("Nettrace") + Decode.PutI32(20, Ascii("!FastSerialization.1") + k)
  }

  function PutObjectHeader(h: ObjectHeader, k: seq<byte>): (s: seq<byte>)
    requires |h.typeName| <= 1024
    ensures |s| == 16 + |h.typeName| + |k|
  {
    [5] + ([5] + ([1] +
      Decode.PutI32(h.version, Decode.PutI32(h.minReaderVersion, Decode.PutI32(|h.typeName|,
        h.typeName + ([6] + k))))))
  }

  /** `fill` is whatever the writer pads with. */
  function PutSized(content: seq<byte>, fill: byte, pos: nat, k: seq<byte>): (s: seq<byte>)
    requires |content| <= 0x1000_0000
    ensures |s| == 4 + Padding(pos + 4) + |content| + |k|
  {
    Decode.PutI32(|content|, seq(Padding(pos + 4), _ => fill) + (content + k))
  }

  // ----- Reading undoes writing

  lemma TakeUndoesAppend(b: seq<byte>, k: seq<byte>)
    ensures Take(b + k, |b|) == Done(b, k)
  {
    assert (b + k)[..|b|] == b;
    assert (b + k)[|b|..] == k;
  }

  lemma I32UndoesPut(v: i32, k: seq<byte>)
    ensures I32(Decode.PutI32(v, k)) == Done(v, k)
  {
    PowersOf256();
    var bytes := LE(Unsigned(v, TWO_32), 4);
    TakeUndoesAppend(bytes, k);
    FromLEUndoesLE(Unsigned(v, TWO_32), 4);
  }

  lemma ExpectTagUndoes(tag: byte, k: seq<byte>, what: Structure)
    ensures ExpectTag([tag] + k, tag, what) == Done((), k)
    ensures U8([tag] + k) == Done(tag, k)
  {
    TakeUndoesAppend([tag], k);
  }

  lemma PreambleUndoesPut(k: seq<byte>)
    ensures ReadPreamble(PutPreamble(k)) == Done((), k)
    ensures |PutPreamble(k)| == 32 + |k|
  {
    hide Take, I32;
    TakeUndoesAppend(Magic(), Decode.PutI32(20, SerializerName() + k));
    I32UndoesPut(20, SerializerName() + k);
    TakeUndoesAppend(SerializerName(), k);
  }

  lemma ObjectHeaderUndoesPut(h: ObjectHeader, k: seq<byte>)
    requires |h.typeName| <= 1024
    ensures ReadObjectHeader(PutObjectHeader(h, k)) == Done(Some(h), k)
  {
    hide Take, U8, I32, ExpectTag, Decode.PutI32;
    var s6 := [END_OBJECT] + k;
    var s5 := h.typeName + s6;
    var s4 := Decode.PutI32(|h.typeName|, s5);
    var s3 := Decode.PutI32(h.minReaderVersion, s4);
    var s2 := Decode.PutI32(h.version, s3);
    var s1 := [NULL_REFERENCE] + s2;
    var s0 := [BEGIN_PRIVATE_OBJECT] + s1;
    ExpectTagUndoes(BEGIN_PRIVATE_OBJECT, s0, ObjectTag);
    ExpectTagUndoes(BEGIN_PRIVATE_OBJECT, s1, SerializationTypeTag);
    ExpectTagUndoes(NULL_REFERENCE, s2, SerializationTypesTypeTag);
    I32UndoesPut(h.version, s3);
    I32UndoesPut(h.minReaderVersion, s4);
    I32UndoesPut(|h.typeName|, s5);
    TakeUndoesAppend(h.typeName, s6);
    ExpectTagUndoes(END_OBJECT, k, EndOfSerializationType);
  }

  lemma SizedUndoesPut(content: seq<byte>, fill: byte, pos: nat, k: seq<byte>)
    requires |content| <= 0x1000_0000
    ensures ReadSized(PutSized(content, fill, pos, k), pos) == Done(content, k)
  {
    hide Take, I32, Decode.PutI32, Padding;
    var pad: seq<byte> := seq(Padding(pos + 4), _ => fill);
    I32UndoesPut(|content|, pad + (content + k));
    TakeUndoesAppend(pad, content + k);
    TakeUndoesAppend(content, k);
  }

  /** Whatever size a block or a type name declares is taken up or refused by that size alone. */
  lemma SizesRefusedExactly(size: i32, s: seq<byte>, pos: nat, version: i32, minReaderVersion: i32)
    ensures ReadSized(Decode.PutI32(size, s), pos) == Failed(Unexpected(BlockSize)) <==> size < 0 || size > 0x1000_0000
    ensures var header := [5] + ([1] + Decode.PutI32(version, Decode.PutI32(minReaderVersion, Decode.PutI32(size, s))));
            ReadType(header) == Failed(Unexpected(TypeNameLength)) <==> size < 0 || size > 1024
  {
    hide Take, I32, ExpectTag, Decode.PutI32;
    I32UndoesPut(size, s);
    var s2 := Decode.PutI32(minReaderVersion, Decode.PutI32(size, s));
    var s1 := Decode.PutI32(version, s2);
    ExpectTagUndoes(5, [1] + s1, SerializationTypeTag);
    ExpectTagUndoes(1, s1, SerializationTypesTypeTag);
    I32UndoesPut(version, s2);
    I32UndoesPut(minReaderVersion, Decode.PutI32(size, s));
    ExpectTagFails(Left(Take(s, if size >= 0 then size else 0)));
    TakeFails(s, Padding(pos + 4), if size >= 0 then size else 0);
  }

  function Left(p: Parsed<seq<byte>>): seq<byte> { if p.Done? then p.rest else [] }

  lemma ExpectTagFails(s: seq<byte>)
    ensures ExpectTag(s, END_OBJECT, EndOfSerializationType) != Failed(Unexpected(TypeNameLength))
  {
  }

  lemma TakeFails(s: seq<byte>, n: nat, m: nat)
    ensures Take(s, n).Failed? ==> Take(s, n) == Failed(Io)
    ensures Take(s, m).Failed? ==> Take(s, m) == Failed(Io)
    ensures Take(Left(Take(s, n)), m).Failed? ==> Take(Left(Take(s, n)), m) == Failed(Io)
  {
  }

  /** An object begins with 5 and the stream ends with 1; any other byte there is refused. */
  lemma TagsRefusedExactly(tag: byte, k: seq<byte>)
    ensures ReadObjectHeader([tag] + k) == Failed(Unexpected(ObjectTag)) <==> tag != 1 && tag != 5
    ensures tag == 1 ==> ReadObjectHeader([tag] + k) == Done(None, k)
  {
    hide ReadType;
    ExpectTagUndoes(tag, k, ObjectTag);
    TypeIsNotATag(k);
  }

  lemma TypeIsNotATag(k: seq<byte>)
    ensures ReadType(k) != Failed(Unexpected(ObjectTag))
  {
    hide Take, ExpectTag;
  }

  /** Three things are checked of a preamble, in this order, and the first that is wrong is named. */
  lemma PreambleRefusedExactly(magic: seq<byte>, length: i32, header: seq<byte>, k: seq<byte>)
    requires |magic| == 8 && |header| == 20
    ensures ReadPreamble(magic + Decode.PutI32(length, header + k))
         == if magic != Ascii("Nettrace") then Failed(Unexpected(StreamMagic))
            else if length != 20 then Failed(Unexpected(SerializerHeaderLength))
            else if header != Ascii("!FastSerialization.1") then Failed(Unexpected(SerializerHeader))
            else Done((), k)
  {
    hide Take, I32, Decode.PutI32, Ascii;
    TakeUndoesAppend(magic, Decode.PutI32(length, header + k));
    I32UndoesPut(length, header + k);
    TakeUndoesAppend(header, k);
  }
}
