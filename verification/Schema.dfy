/**
 What an event's payload looks like, and the decoding functions for the two encodings of that description
 (src/nettrace/metadata.rs). In V1 a field's type comes before its name; in V2 a size comes first and the type last.
 */
module Schema {
  import opened Wire
  import opened Decode

  /** `System.TypeCode` plus Guid (17) and Array (19); 0 and 2 are unused. */
  type TypeCode = c: int | IsTypeCode(c) witness 1

  predicate IsTypeCode(c: int) { c == 1 || 3 <= c <= 19 }

  const OBJECT: TypeCode := 1
  const BOOLEAN: TypeCode := 3
  const CHAR: TypeCode := 4
  const SBYTE: TypeCode := 5
  const BYTE: TypeCode := 6
  const INT16: TypeCode := 7
  const UINT16: TypeCode := 8
  const INT32: TypeCode := 9
  const UINT32: TypeCode := 10
  const INT64: TypeCode := 11
  const UINT64: TypeCode := 12
  const SINGLE: TypeCode := 13
  const DOUBLE: TypeCode := 14
  const DECIMAL: TypeCode := 15
  const DATE_TIME: TypeCode := 16
  const GUID: TypeCode := 17
  const STRING: TypeCode := 18
  const ARRAY: TypeCode := 19

  datatype FieldType =
    | Scalar(code: TypeCode)
    | Object(fields: seq<Field>)
    | Array(element: FieldType)
    | Unknown(raw: i32)

  datatype Field = Field(name: seq<u16>, ty: FieldType)

  datatype EventMetadata = EventMetadata(
    metadataId: u32,
    providerName: seq<u16>,
    eventId: i32,
    eventName: seq<u16>,
    keywords: u64,
    version: i32,
    level: i32,
    fields: seq<Field>)

  /** Nested field lists deeper than this are refused. */
  const MAX_TYPE_DEPTH: nat := 16

  const TAG_PARAMETER_PAYLOAD_V2: byte := 2

  // ----- V1: a count, then per field its type and its name

  function FieldsV1(s: seq<byte>, depth: nat): (p: Parsed<seq<Field>>)
    ensures p.Done? ==> |p.rest| + 4 <= |s|
    decreases |s|, 2
  {
    if depth > MAX_TYPE_DEPTH then Failed(Unexpected(NestingDepth))
    else
      var (count, k) :- I32(s);
      if count < 0 then Failed(Unexpected(V1FieldCount)) else FieldListV1(k, depth, count)
  }

  function FieldListV1(s: seq<byte>, depth: nat, count: nat): (p: Parsed<seq<Field>>)
    ensures p.Done? ==> |p.rest| <= |s|
    decreases |s|, 1
  {
    if count == 0 then Done([], s)
    else
      var (ty, k1) :- TypeV1(s, depth);
      var (name, k2) :- Utf16Nul(k1);
      After([Field(name, ty)], FieldListV1(k2, depth, count - 1))
  }

  function TypeV1(s: seq<byte>, depth: nat): (p: Parsed<FieldType>)
    ensures p.Done? ==> |p.rest| + 4 <= |s|
    decreases |s|, 0
  {
    var (raw, k) :- I32(s);
    if raw == OBJECT then
      var (fields, k2) :- FieldsV1(k, depth + 1);
      Done(Object(fields), k2)
    else if IsTypeCode(raw) then Done(Scalar(raw), k)
    else Done(Unknown(raw), k)
  }

  // ----- V2: a count, then per field a size, its name and its type

  function FieldsV2(s: seq<byte>, depth: nat): (p: Parsed<seq<Field>>)
    ensures p.Done? ==> |p.rest| + 4 <= |s|
    decreases |s|, 2
  {
    if depth > MAX_TYPE_DEPTH then Failed(Unexpected(NestingDepth))
    else
      var (count, k) :- I32(s);
      if count < 0 then Failed(Unexpected(V2FieldCount)) else FieldListV2(k, depth, count)
  }

  /** The size covers itself, bounds the field, and absorbs whatever follows its type. */
  function FieldListV2(s: seq<byte>, depth: nat, count: nat): (p: Parsed<seq<Field>>)
    ensures p.Done? ==> |p.rest| <= |s|
    decreases |s|, 1
  {
    if count == 0 then Done([], s)
    else
      var (size, k1) :- I32(s);
      if size < 4 then Failed(Unexpected(V2FieldSize))
      else
        var (body, k2) :- Take(k1, size - 4);
        var (field, _) :- FieldBodyV2(body, depth);
        After([field], FieldListV2(k2, depth, count - 1))
  }

  function FieldBodyV2(body: seq<byte>, depth: nat): (p: Parsed<Field>)
    decreases |body|, 1
  {
    var (name, b1) :- Utf16Nul(body);
    var (ty, b2) :- TypeV2(b1, depth);
    Done(Field(name, ty), b2)
  }

  /** Arrays nest without a depth check of their own; each level still consumes four bytes. */
  function TypeV2(s: seq<byte>, depth: nat): (p: Parsed<FieldType>)
    ensures p.Done? ==> |p.rest| + 4 <= |s|
    decreases |s|, 0
  {
    var (raw, k) :- I32(s);
    if raw == ARRAY then
      var (element, k2) :- TypeV2(k, depth + 1);
      Done(Array(element), k2)
    else if raw == OBJECT then
      var (fields, k2) :- FieldsV2(k, depth + 1);
      Done(Object(fields), k2)
    else if IsTypeCode(raw) then Done(Scalar(raw), k)
    else Done(Unknown(raw), k)
  }

  // ----- A whole record

  /** Tags after the V1 list: a V2 list replaces the fields, anything else is passed over. */
  function Tags(s: seq<byte>, fields: seq<Field>): (p: Parsed<seq<Field>>)
    decreases |s|
  {
    if |s| <= 4 then Done(fields, s)
    else
      var (length, k1) :- I32(s);
      if length < 0 then Failed(Unexpected(MetadataTagLength))
      else
        var (kind, k2) :- U8(k1);
        var (body, k3) :- Take(k2, length);
        if kind == TAG_PARAMETER_PAYLOAD_V2 then
          var (replaced, _) :- FieldsV2(body, 0);
          Tags(k3, replaced)
        else Tags(k3, fields)
  }

  /** The fixed part of a record: everything but its fields. */
  function RecordHead(s: seq<byte>): Parsed<EventMetadata> {
    var (metadataId, s1) :- U32(s);
    var (providerName, s2) :- Utf16Nul(s1);
    var (eventId, s3) :- I32(s2);
    var (eventName, s4) :- Utf16Nul(s3);
    var (keywords, s5) :- U64(s4);
    var (version, s6) :- I32(s5);
    var (level, s7) :- I32(s6);
    Done(EventMetadata(metadataId, providerName, eventId, eventName, keywords, version, level, []), s7)
  }

  /** No bytes after the head means no parameter list at all. */
  function InlineFields(s: seq<byte>): Parsed<seq<Field>> {
    if s == [] then Done([], s) else FieldsV1(s, 0)
  }

  function ParseMetadata(payload: seq<byte>): Parsed<EventMetadata> {
    var (head, s1) :- RecordHead(payload);
    var (inline, s2) :- InlineFields(s1);
    var (fields, s3) :- Tags(s2, inline);
    Done(head.(fields := fields), s3)
  }
}
