/** The stream reader of src/nettrace/reader.rs, tracking how many bytes it has consumed. */
module Streams {
  import opened Wire
  import opened Framing

  const SKIP_CHUNK: nat := 4096

  class StreamReader {
    /** What the source has yet to deliver. */
    var inner: seq<byte>
    /** How many bytes have been consumed since the first. */
    var pos: nat

    constructor (source: seq<byte>)
      ensures inner == source && pos == 0
    {
      inner, pos := source, 0;
    }

    /** The offset at which the source runs dry; reading moves `pos` towards it and leaves it alone. */
    ghost function End(): nat
      reads this
    {
      pos + |inner|
    }

    method ReadExact(n: nat) returns (r: Result<seq<byte>>)
      modifies this
      ensures Matches(Framing.Take(old(inner), n), r, inner)
      ensures r.Ok? ==> End() == old(End())
    {
      if |inner| < n {
        inner := [];
        return Err(Io);
      }
      var bytes := inner[..n];
      inner := inner[n..];
      pos := pos + n;
      return Ok(bytes);
    }

    /** At most `SKIP_CHUNK` bytes are held at a time. */
    method Skip(n: nat) returns (r: Result<()>)
      modifies this
      ensures match Framing.Take(old(inner), n)
              case Done(_, k) => r.Ok? && inner == k && End() == old(End())
              case Failed(e) => r == Err(e)
    {
      var left: nat := n;
      while left > 0
        invariant left <= n && n - left <= |old(inner)|
        invariant inner == old(inner)[n - left..]
        invariant pos == old(pos) + (n - left)
      {
        var take := if left < SKIP_CHUNK then left else SKIP_CHUNK;
        var _ :- ReadExact(take);
        left := left - take;
      }
      return Ok(());
    }

    method U8() returns (r: Result<byte>)
      modifies this
      ensures Matches(Framing.U8(old(inner)), r, inner)
      ensures r.Ok? ==> End() == old(End())
    {
      var b :- ReadExact(1);
      return Ok(b[0]);
    }

    method I32() returns (r: Result<i32>)
      modifies this
      ensures Matches(Framing.I32(old(inner)), r, inner)
      ensures r.Ok? ==> End() == old(End())
    {
      PowersOf256();
      var b :- ReadExact(4);
      return Ok(Signed(FromLE(b), TWO_32));
    }

    method ExpectTag(tag: byte, what: Structure) returns (r: Result<()>)
      modifies this
      ensures Matches(Framing.ExpectTag(old(inner), tag, what), r, inner)
      ensures r.Ok? ==> End() == old(End())
    {
      var b :- U8();
      if b != tag {
        return Err(Unexpected(what));
      }
      return Ok(());
    }

    method ReadPreamble() returns (r: Result<()>)
      modifies this
      ensures Matches(Framing.ReadPreamble(old(inner)), r, inner)
      ensures r.Ok? ==> End() == old(End())
    {
      hide Framing.Take, Framing.I32, Magic, SerializerName;
      var magic :- ReadExact(8);
      if magic != Magic() {
        return Err(Unexpected(StreamMagic));
      }
      var length :- I32();
      if length != 20 {
        return Err(Unexpected(SerializerHeaderLength));
      }
      var header :- ReadExact(20);
      if header != SerializerName() {
        return Err(Unexpected(SerializerHeader));
      }
      return Ok(());
    }

    method ReadType() returns (r: Result<ObjectHeader>)
      modifies this
      ensures Matches(Framing.ReadType(old(inner)), r, inner)
      ensures r.Ok? ==> End() == old(End())
    {
      hide Framing.Take, Framing.I32, Framing.ExpectTag;
      var _ :- ExpectTag(BEGIN_PRIVATE_OBJECT, SerializationTypeTag);
      var _ :- ExpectTag(NULL_REFERENCE, SerializationTypesTypeTag);
      var version :- I32();
      var minReaderVersion :- I32();
      var length :- I32();
      if !(0 <= length <= MAX_TYPE_NAME) {
        return Err(Unexpected(TypeNameLength));
      }
      var name :- ReadExact(length);
      var _ :- ExpectTag(END_OBJECT, EndOfSerializationType);
      return Ok(ObjectHeader(name, version, minReaderVersion));
    }

    method ReadObjectHeader() returns (r: Result<Option<ObjectHeader>>)
      modifies this
      ensures Matches(Framing.ReadObjectHeader(old(inner)), r, inner)
      ensures r.Ok? ==> End() == old(End())
    {
      hide Framing.U8, Framing.ReadType;
      var tag :- U8();
      if tag == NULL_REFERENCE {
        return Ok(None);
      }
      if tag != BEGIN_PRIVATE_OBJECT {
        return Err(Unexpected(ObjectTag));
      }
      var header :- ReadType();
      return Ok(Some(header));
    }

    method BlockSize() returns (r: Result<nat>)
      modifies this
      ensures match Framing.I32(old(inner))
              case Failed(e) => r == Err(e)
              case Done(size, k) =>
                if 0 <= size <= MAX_BLOCK_SIZE then
                  r == Ok(size) && inner == k && pos == old(pos) + 4
                else r == Err(Unexpected(Structure.BlockSize))
    {
      var size :- I32();
      if !(0 <= size <= MAX_BLOCK_SIZE) {
        return Err(Unexpected(Structure.BlockSize));
      }
      return Ok(size);
    }

    method SkipPadding() returns (r: Result<()>)
      modifies this
      ensures match Framing.Take(old(inner), Padding(old(pos)))
              case Done(_, k) => r.Ok? && inner == k && End() == old(End())
              case Failed(e) => r == Err(e)
    {
      r := Skip(Padding(pos));
    }

    /** A block's content, past the padding its absolute offset calls for. */
    method ReadBlockContent() returns (r: Result<seq<byte>>)
      modifies this
      ensures Matches(ReadSized(old(inner), old(pos)), r, inner)
      ensures r.Ok? ==> End() == old(End())
    {
      hide Framing.Take, Framing.I32, Padding;
      var size :- BlockSize();
      var _ :- SkipPadding();
      r := ReadExact(size);
    }

    method SkipBlock() returns (r: Result<()>)
      modifies this
      ensures match ReadSized(old(inner), old(pos))
              case Done(_, k) => r.Ok? && inner == k && End() == old(End())
              case Failed(e) => r == Err(e)
    {
      hide Framing.Take, Framing.I32, Padding;
      var size :- BlockSize();
      var _ :- SkipPadding();
      r := Skip(size);
    }
  }
}
