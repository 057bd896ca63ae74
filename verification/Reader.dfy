/**
 The in-memory reader of src/nettrace/reader.rs: a buffer and a position that only moves forward.

 Each method is proved against the decoding function of the same name: on success it returns the same
 value and leaves the same bytes unread, on failure it returns the same error.
 */
module Readers {
  import opened Wire
  import Decode

  class Reader {
    const buf: seq<byte>
    var pos: nat

    ghost predicate Valid()
      reads this
    {
      pos <= |buf|
    }

    /** The unread bytes. */
    ghost function Rest(): (s: seq<byte>)
      requires Valid()
      reads this
      ensures |s| == |buf| - pos
    {
      buf[pos..]
    }

    constructor (bytes: seq<byte>)
      ensures Valid() && buf == bytes && Rest() == bytes
    {
      buf, pos := bytes, 0;
    }

    method Remaining() returns (n: nat)
      requires Valid()
      ensures n == |Rest()|
    {
      n := |buf| - pos;
    }

    method Take(n: nat) returns (r: Result<seq<byte>>)
      requires Valid()
      modifies this
      ensures Valid() && Matches(Decode.Take(old(Rest()), n), r, Rest())
    {
      if |buf| - pos < n {
        return Err(Truncated(n, |buf| - pos));
      }
      var slice := buf[pos..pos + n];
      assert slice == Rest()[..n] && buf[pos + n..] == Rest()[n..];
      pos := pos + n;
      return Ok(slice);
    }

    method Skip(n: nat) returns (r: Result<()>)
      requires Valid()
      modifies this
      ensures Valid()
      ensures match Decode.Take(old(Rest()), n)
              case Done(_, k) => r.Ok? && Rest() == k
              case Failed(e) => r == Err(e)
    {
      var _ :- Take(n);
      return Ok(());
    }

    method U8() returns (r: Result<byte>)
      requires Valid()
      modifies this
      ensures Valid() && Matches(Decode.U8(old(Rest())), r, Rest())
    {
      var b :- Take(1);
      return Ok(b[0]);
    }

    method U16() returns (r: Result<u16>)
      requires Valid()
      modifies this
      ensures Valid() && Matches(Decode.U16(old(Rest())), r, Rest())
    {
      PowersOf256();
      var b :- Take(2);
      return Ok(FromLE(b));
    }

    method I16() returns (r: Result<i16>)
      requires Valid()
      modifies this
      ensures Valid() && Matches(Decode.I16(old(Rest())), r, Rest())
    {
      var v :- U16();
      return Ok(Signed(v, 0x1_0000));
    }

    method U32() returns (r: Result<u32>)
      requires Valid()
      modifies this
      ensures Valid() && Matches(Decode.U32(old(Rest())), r, Rest())
    {
      PowersOf256();
      var b :- Take(4);
      return Ok(FromLE(b));
    }

    method I32() returns (r: Result<i32>)
      requires Valid()
      modifies this
      ensures Valid() && Matches(Decode.I32(old(Rest())), r, Rest())
    {
      var v :- U32();
      return Ok(Signed(v, TWO_32));
    }

    method U64() returns (r: Result<u64>)
      requires Valid()
      modifies this
      ensures Valid() && Matches(Decode.U64(old(Rest())), r, Rest())
    {
      PowersOf256();
      var b :- Take(8);
      return Ok(FromLE(b));
    }

    method I64() returns (r: Result<i64>)
      requires Valid()
      modifies this
      ensures Valid() && Matches(Decode.I64(old(Rest())), r, Rest())
    {
      var v :- U64();
      return Ok(Signed(v, TWO_64));
    }

    /**
     Groups are accumulated into 64 bits; a shift past the top drops the high bits of the last group.
     `maxShift` is seven times the longest encoding accepted.
     */
    method VarUInt(maxShift: nat) returns (r: Result<u64>)
      requires Valid() && maxShift % 7 == 0
      modifies this
      ensures Valid() && Matches(Decode.VarUInt(old(Rest()), maxShift / 7), r, Rest())
    {
      hide Decode.VarUInt, Decode.GroupSum, Decode.Continuations;
      var value: u64 := 0;
      var shift := 0;
      Decode.NoGroups();
      ghost var s := Rest();
      ghost var n := 0;
      ghost var most := maxShift / 7;
      while true
        invariant Valid() && n <= |s| && Rest() == s[n..]
        invariant shift == 7 * n && n <= most
        invariant n <= Decode.Continuations(s)
        invariant value == Decode.GroupSum(s[..n]) % TWO_64
        decreases most - n
      {
        Decode.VarUIntStops(s, n, most);
        if shift >= maxShift {
          return Err(MalformedVarint);
        }
        var b :- U8();
        assert s[..n] + [b] == s[..n + 1];
        value := AddGroup(value, b, shift / 7, s[..n]);
        shift := shift + 7;
        n := n + 1;
        if b < 0x80 {
          return Ok(value);
        }
      }
    }

    /** Or-ing a group into bits that are still clear is addition; the result keeps 64 bits. */
    static method AddGroup(value: u64, b: byte, groups: nat, ghost before: seq<byte>) returns (v: u64)
      requires groups == |before| && value == Decode.GroupSum(before) % TWO_64
      ensures v == Decode.GroupSum(before + [b]) % TWO_64
    {
      Decode.GroupSumPush(before, b);
      ghost var sum := Decode.GroupSum(before);
      var group := Decode.Group(b, groups);
      Keep64(sum, group);
      v := (value + group) % TWO_64;
    }

    method VarUInt32() returns (r: Result<u32>)
      requires Valid()
      modifies this
      ensures Valid() && Matches(Decode.VarUInt32(old(Rest())), r, Rest())
    {
      var v :- VarUInt(35);
      return Ok(v % TWO_32);
    }

    method VarUInt64() returns (r: Result<u64>)
      requires Valid()
      modifies this
      ensures Valid() && Matches(Decode.VarUInt64(old(Rest())), r, Rest())
    {
      r := VarUInt(70);
    }

    method I16s(n: nat) returns (r: Result<seq<i16>>)
      requires Valid()
      modifies this
      ensures Valid() && Matches(Decode.I16s(old(Rest()), n), r, Rest())
    {
      hide Decode.I16, After;
      var parts: seq<i16> := [];
      for i := 0 to n
        invariant Valid()
        invariant Decode.I16s(old(Rest()), n) == After(parts, Decode.I16s(Rest(), n - i))
      {
        var part :- I16();
        AfterTwice(parts, [part], Decode.I16s(Rest(), n - i - 1));
        parts := parts + [part];
      }
      AfterNothing(parts, Rest());
      return Ok(parts);
    }

    method Utf16NulString() returns (r: Result<seq<u16>>)
      requires Valid()
      modifies this
      ensures Valid() && Matches(Decode.Utf16Nul(old(Rest())), r, Rest())
    {
      var units: seq<u16> := [];
      ghost var whole := Decode.Utf16Nul(Rest());
      while true
        invariant Valid()
        invariant whole == After(units, Decode.Utf16Nul(Rest()))
        decreases |Rest()|
      {
        var unit :- U16();
        ghost var tail := if unit == 0 then Done([], Rest()) else Decode.Utf16Nul(Rest());
        if tail.Done? { AfterPush(units, unit, tail.value, tail.rest); }
        if unit == 0 {
          return Ok(units);
        }
        units := units + [unit];
      }
    }
  }
}
