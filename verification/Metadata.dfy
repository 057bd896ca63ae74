/**
 The metadata parser of src/nettrace/metadata.rs: loops over a reader, proved against the decoding functions
 of `Schema`, and the registry the records end up in.
 */
module Metadata {
  import opened Wire
  import opened Decode
  import opened Readers
  import opened Schema

  /** Records by id; a later record with the same id replaces the earlier one. */
  class MetadataStore {
    var byId: map<u32, EventMetadata>

    constructor ()
      ensures byId == map[]
    {
      byId := map[];
    }

    method Insert(metadata: EventMetadata)
      modifies this
      ensures byId == old(byId)[metadata.metadataId := metadata]
    {
      byId := byId[metadata.metadataId := metadata];
    }
  }

  method ReadFieldsV1(r: Reader, depth: nat) returns (result: Result<seq<Field>>)
    requires r.Valid()
    modifies r
    ensures r.Valid() && Matches(FieldsV1(old(r.Rest()), depth), result, r.Rest())
    decreases |r.Rest()|, 1
  {
    hide I32, TypeV1, Utf16Nul, After;
    if depth > MAX_TYPE_DEPTH {
      return Err(Unexpected(NestingDepth));
    }
    var count :- r.I32();
    if count < 0 {
      return Err(Unexpected(V1FieldCount));
    }
    var fields: seq<Field> := [];
    ghost var whole := FieldListV1(r.Rest(), depth, count);
    for i := 0 to count
      invariant r.Valid() && |r.Rest()| < |old(r.Rest())|
      invariant whole == After(fields, FieldListV1(r.Rest(), depth, count - i))
    {
      var ty :- ReadTypeV1(r, depth);
      var name :- r.Utf16NulString();
      AfterTwice(fields, [Field(name, ty)], FieldListV1(r.Rest(), depth, count - i - 1));
      fields := fields + [Field(name, ty)];
    }
    AfterNothing(fields, r.Rest());
    return Ok(fields);
  }

  method ReadTypeV1(r: Reader, depth: nat) returns (result: Result<FieldType>)
    requires r.Valid()
    modifies r
    ensures r.Valid() && Matches(TypeV1(old(r.Rest()), depth), result, r.Rest())
    decreases |r.Rest()|, 0
  {
    hide I32, FieldsV1;
    var raw :- r.I32();
    if raw == OBJECT {
      var fields :- ReadFieldsV1(r, depth + 1);
      return Ok(Object(fields));
    }
    return Ok(if IsTypeCode(raw) then Scalar(raw) else Unknown(raw));
  }

  method ReadFieldsV2(r: Reader, depth: nat) returns (result: Result<seq<Field>>)
    requires r.Valid()
    modifies r
    ensures r.Valid() && Matches(FieldsV2(old(r.Rest()), depth), result, r.Rest())
    decreases |r.Rest()|, 3
  {
    hide I32, Take, FieldBodyV2, After;
    if depth > MAX_TYPE_DEPTH {
      return Err(Unexpected(NestingDepth));
    }
    var count :- r.I32();
    if count < 0 {
      return Err(Unexpected(V2FieldCount));
    }
    var fields: seq<Field> := [];
    ghost var whole := FieldListV2(r.Rest(), depth, count);
    for i := 0 to count
      invariant r.Valid() && |r.Rest()| < |old(r.Rest())|
      invariant whole == After(fields, FieldListV2(r.Rest(), depth, count - i))
    {
      var size :- r.I32();
      if size < 4 {
        return Err(Unexpected(V2FieldSize));
      }
      var body :- r.Take(size - 4);
      var field :- ReadBoundedField(body, depth);
      AfterTwice(fields, [field], FieldListV2(r.Rest(), depth, count - i - 1));
      fields := fields + [field];
    }
    AfterNothing(fields, r.Rest());
    return Ok(fields);
  }

  /** A reader of its own bounds the field, whatever its declared type claims. */
  method ReadBoundedField(body: seq<byte>, depth: nat) returns (result: Result<Field>)
    ensures match FieldBodyV2(body, depth)
            case Done(field, _) => result == Ok(field)
            case Failed(e) => result == Err(e)
    decreases |body|, 2
  {
    hide FieldBodyV2;
    var fieldReader := new Reader(body);
    result := ReadFieldBodyV2(fieldReader, depth);
  }

  method ReadFieldBodyV2(r: Reader, depth: nat) returns (result: Result<Field>)
    requires r.Valid()
    modifies r
    ensures r.Valid() && Matches(FieldBodyV2(old(r.Rest()), depth), result, r.Rest())
    decreases |r.Rest()|, 1
  {
    hide Utf16Nul, TypeV2;
    var name :- r.Utf16NulString();
    var ty :- ReadTypeV2(r, depth);
    return Ok(Field(name, ty));
  }

  method ReadTypeV2(r: Reader, depth: nat) returns (result: Result<FieldType>)
    requires r.Valid()
    modifies r
    ensures r.Valid() && Matches(TypeV2(old(r.Rest()), depth), result, r.Rest())
    decreases |r.Rest()|, 0
  {
    hide I32, FieldsV2;
    var raw :- r.I32();
    if raw == ARRAY {
      var element :- ReadTypeV2(r, depth + 1);
      return Ok(Array(element));
    }
    if raw == OBJECT {
      var fields :- ReadFieldsV2(r, depth + 1);
      return Ok(Object(fields));
    }
    return Ok(if IsTypeCode(raw) then Scalar(raw) else Unknown(raw));
  }

  method ReadHead(r: Reader) returns (result: Result<EventMetadata>)
    requires r.Valid()
    modifies r
    ensures r.Valid() && Matches(RecordHead(old(r.Rest())), result, r.Rest())
  {
    hide U32, U64, I32, Utf16Nul;
    var metadataId :- r.U32();
    var providerName :- r.Utf16NulString();
    var eventId :- r.I32();
    var eventName :- r.Utf16NulString();
    var keywords :- r.U64();
    var version :- r.I32();
    var level :- r.I32();
    return Ok(EventMetadata(metadataId, providerName, eventId, eventName, keywords, version, level, []));
  }

  method ReadListFrom(body: seq<byte>) returns (result: Result<seq<Field>>)
    ensures match FieldsV2(body, 0)
            case Done(fields, _) => result == Ok(fields)
            case Failed(e) => result == Err(e)
  {
    hide FieldsV2;
    var bodyReader := new Reader(body);
    result := ReadFieldsV2(bodyReader, 0);
  }

  method ReadTags(r: Reader, inline: seq<Field>) returns (result: Result<seq<Field>>)
    requires r.Valid()
    modifies r
    ensures r.Valid() && Matches(Tags(old(r.Rest()), inline), result, r.Rest())
  {
    hide I32, U8, Take, FieldsV2;
    var fields := inline;
    while true
      invariant r.Valid()
      invariant Tags(old(r.Rest()), inline) == Tags(r.Rest(), fields)
      decreases |r.Rest()|
    {
      var left := r.Remaining();
      if left <= 4 {
        return Ok(fields);
      }
      var length :- r.I32();
      if length < 0 {
        return Err(Unexpected(MetadataTagLength));
      }
      var kind :- r.U8();
      var body :- r.Take(length);
      if kind == TAG_PARAMETER_PAYLOAD_V2 {
        fields :- ReadListFrom(body);
      }
    }
  }

  method ReadInlineFields(r: Reader) returns (result: Result<seq<Field>>)
    requires r.Valid()
    modifies r
    ensures r.Valid() && Matches(InlineFields(old(r.Rest())), result, r.Rest())
  {
    hide FieldsV1;
    var left := r.Remaining();
    if left == 0 {
      return Ok([]);
    }
    result := ReadFieldsV1(r, 0);
  }

  method ParseFrom(r: Reader) returns (result: Result<EventMetadata>)
    requires r.Valid()
    modifies r
    ensures r.Valid() && Matches(ParseMetadata(old(r.Rest())), result, r.Rest())
  {
    hide RecordHead, InlineFields, Tags;
    var head :- ReadHead(r);
    var inline :- ReadInlineFields(r);
    var fields :- ReadTags(r, inline);
    return Ok(head.(fields := fields));
  }

  method Parse(payload: seq<byte>) returns (result: Result<EventMetadata>)
    ensures match ParseMetadata(payload)
            case Done(metadata, _) => result == Ok(metadata)
            case Failed(e) => result == Err(e)
  {
    hide ParseMetadata;
    var r := new Reader(payload);
    result := ParseFrom(r);
  }
}
