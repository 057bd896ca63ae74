/** The payload decoder of src/nettrace/payload.rs: loops over a reader, proved against `Values`. */
module Payload {
  import opened Wire
  import opened Decode
  import opened Readers
  import opened Schema
  import opened Values

  method ReadWord(code: TypeCode, r: Reader) returns (result: Result<Value>)
    requires r.Valid()
    modifies r
    ensures r.Valid() && Matches(DecodeWord(code, old(r.Rest())), result, r.Rest())
  {
    hide U8, U16, U32, U64, I16, I32, I64;
    if code == BOOLEAN { var v :- r.I32(); return Ok(Bool(v != 0)); }
    else if code == CHAR { var v :- r.U16(); return Ok(Char(v)); }
    else if code == SBYTE { var v :- r.U8(); return Ok(Int(Signed(v, 0x100))); }
    else if code == BYTE { var v :- r.U8(); return Ok(UInt(v)); }
    else if code == INT16 { var v :- r.I16(); return Ok(Int(v)); }
    else if code == UINT16 { var v :- r.U16(); return Ok(UInt(v)); }
    else if code == INT32 { var v :- r.I32(); return Ok(Int(v)); }
    else if code == UINT32 { var v :- r.U32(); return Ok(UInt(v)); }
    else if code == INT64 { var v :- r.I64(); return Ok(Int(v)); }
    else if code == UINT64 { var v :- r.U64(); return Ok(UInt(v)); }
    else if code == SINGLE { var v :- r.U32(); return Ok(Float32(v)); }
    else if code == DOUBLE { var v :- r.U64(); return Ok(Float64(v)); }
    else { return Err(Unexpected(ScalarFieldType)); }
  }

  method ReadScalar(code: TypeCode, r: Reader) returns (result: Result<Value>)
    requires r.Valid()
    modifies r
    ensures r.Valid() && Matches(DecodeScalar(code, old(r.Rest())), result, r.Rest())
  {
    hide Take, Utf16Nul, I16s, DecodeWord;
    if code == DECIMAL { var b :- r.Take(16); return Ok(Decimal(b)); }
    else if code == DATE_TIME { var parts :- r.I16s(8); return Ok(DateTime(parts)); }
    else if code == GUID { var b :- r.Take(16); return Ok(Guid(b)); }
    else if code == STRING { var units :- r.Utf16NulString(); return Ok(Str(units)); }
    else { result := ReadWord(code, r); }
  }

  method ReadValue(ty: FieldType, r: Reader) returns (result: Result<Value>)
    requires r.Valid()
    modifies r
    ensures r.Valid() && Matches(DecodeValue(ty, old(r.Rest())), result, r.Rest())
    decreases ty
  {
    hide U16, DecodeScalar, DecodeInto, After;
    match ty
    case Scalar(code) => result := ReadScalar(code, r);
    case Array(element) =>
      var count :- r.U16();
      var values: seq<Value> := [];
      ghost var whole := DecodeElements(element, r.Rest(), count);
      for i := 0 to count
        invariant r.Valid()
        invariant whole == After(values, DecodeElements(element, r.Rest(), count - i))
      {
        var value :- ReadValue(element, r);
        AfterTwice(values, [value], DecodeElements(element, r.Rest(), count - i - 1));
        values := values + [value];
      }
      AfterNothing(values, r.Rest());
      return Ok(List(values));
    case Object(children) =>
      var nested :- ReadInto(children, r, map[]);
      return Ok(Nested(nested));
    case Unknown(_) => return Err(Unexpected(PayloadFieldType));
  }

  method ReadInto(fields: seq<Field>, r: Reader, before: map<Name, Value>) returns (result: Result<map<Name, Value>>)
    requires r.Valid()
    modifies r
    ensures r.Valid() && Matches(DecodeInto(fields, old(r.Rest()), before), result, r.Rest())
    decreases fields
  {
    hide DecodeValue;
    var out := before;
    assert fields[0..] == fields;
    for i := 0 to |fields|
      invariant r.Valid()
      invariant DecodeInto(fields, old(r.Rest()), before) == DecodeInto(fields[i..], r.Rest(), out)
    {
      assert fields[i..][1..] == fields[i + 1..];
      match fields[i].ty
      case Object(children) => out :- ReadInto(children, r, out);
      case ty =>
        var value :- ReadValue(ty, r);
        out := out[fields[i].name := value];
    }
    return Ok(out);
  }

  method DecodeFlat(fields: seq<Field>, payload: seq<byte>) returns (result: Result<map<Name, Value>>)
    ensures match DecodeInto(fields, payload, map[])
            case Done(out, _) => result == Ok(out)
            case Failed(e) => result == Err(e)
  {
    hide DecodeInto;
    var r := new Reader(payload);
    result := ReadInto(fields, r, map[]);
  }
}
