/**
 Writers for metadata records, and the proof that parsing a written record gives back its meaning: the field
 tree in either encoding, and the last V2 list where tags follow.
 */
module SchemaWriter {
  import opened Wire
  import opened Decode
  import opened Schema

  // Types go by the format's own numbers here: 1 is an object, 19 an array, and tag 2 a V2 list.

  const MAX_COUNT: int := 0x8000_0000

  /** The numbers the format has given to types. */
  predicate Assigned(raw: i32) {
    raw == 1 || 3 <= raw <= 19
  }

  // ----- V1

  /** Field trees V1 can express: no Array nodes, and nesting within the limit. */
  predicate ListOkV1(fields: seq<Field>, depth: nat)
    decreases fields, 1
  {
    fields == [] || (FieldOkV1(fields[0], depth) && ListOkV1(fields[1..], depth))
  }

  predicate FieldOkV1(f: Field, depth: nat)
    decreases f, 0
  {
    0 !in f.name &&
    match f.ty
    case Scalar(code) => code != 1
    case Object(fields) => FieldsOkV1(fields, depth + 1)
    case Array(_) => false
    case Unknown(raw) => !Assigned(raw)
  }

  predicate FieldsOkV1(fields: seq<Field>, depth: nat)
    decreases fields, 2
  {
    depth <= 16 && |fields| < MAX_COUNT && ListOkV1(fields, depth)
  }

  function PutFieldsV1(fields: seq<Field>, k: seq<byte>): seq<byte>
    requires |fields| < MAX_COUNT
    decreases fields, 2
  {
    PutI32(|fields|, PutListV1(fields, k))
  }

  function PutListV1(fields: seq<Field>, k: seq<byte>): seq<byte>
    decreases fields, 1
  {
    if fields == [] then k
    else PutTypeV1(fields[0].ty, PutUtf16(fields[0].name, PutListV1(fields[1..], k)))
  }

  function PutTypeV1(ty: FieldType, k: seq<byte>): seq<byte>
    decreases ty, 0
  {
    match ty
    case Scalar(code) => PutI32(code, k)
    case Object(fields) => if |fields| < MAX_COUNT then PutI32(1, PutFieldsV1(fields, k)) else k
    case Array(_) => k
    case Unknown(raw) => PutI32(raw, k)
  }

  lemma {:induction false} ListUndoesPutV1(fields: seq<Field>, depth: nat, k: seq<byte>)
    requires depth <= 16 && ListOkV1(fields, depth)
    ensures FieldListV1(PutListV1(fields, k), depth, |fields|) == Done(fields, k)
    decreases fields, 1
  {
    hide PutTypeV1, TypeV1, PutUtf16, Utf16Nul, FieldOkV1;
    if fields == [] {
    } else {
      var f := fields[0];
      var tail := PutListV1(fields[1..], k);
      TypeUndoesPutV1(f, depth, PutUtf16(f.name, tail));
      FieldNameOkV1(f, depth);
      Utf16NulUndoesPut(f.name, tail);
      ListUndoesPutV1(fields[1..], depth, k);
      assert [f] + fields[1..] == fields;
    }
  }

  lemma FieldNameOkV1(f: Field, depth: nat)
    requires FieldOkV1(f, depth)
    ensures 0 !in f.name
  {
  }

  lemma {:induction false} TypeUndoesPutV1(f: Field, depth: nat, k: seq<byte>)
    requires FieldOkV1(f, depth)
    ensures TypeV1(PutTypeV1(f.ty, k), depth) == Done(f.ty, k)
    decreases f, 0
  {
    hide I32, PutI32, FieldsV1, PutFieldsV1;
    match f.ty
    case Scalar(code) => I32UndoesPut(code, k);
    case Object(fields) =>
      I32UndoesPut(1, PutFieldsV1(fields, k));
      FieldsUndoPutV1(fields, depth + 1, k);
    case Unknown(raw) => I32UndoesPut(raw, k);
  }

  /** A field tree without arrays, nested up to the limit, survives the V1 encoding. */
  lemma {:induction false} FieldsUndoPutV1(fields: seq<Field>, depth: nat, k: seq<byte>)
    requires FieldsOkV1(fields, depth)
    ensures FieldsV1(PutFieldsV1(fields, k), depth) == Done(fields, k)
    decreases fields, 2
  {
    hide I32, PutI32, FieldListV1, PutListV1, ListOkV1;
    I32UndoesPut(|fields|, PutListV1(fields, k));
    ListUndoesPutV1(fields, depth, k);
  }

  // ----- V2

  /** A field tree as V2 writes it: every field may carry slack after its type. */
  datatype WireType =
    | WireScalar(code: TypeCode)
    | WireObject(fields: seq<WireField>)
    | WireArray(element: WireType)
    | WireUnknown(raw: i32)

  datatype WireField = WireField(name: seq<u16>, ty: WireType, slack: seq<byte>)

  function TypeOf(t: WireType): FieldType
    decreases t, 0
  {
    match t
    case WireScalar(code) => Scalar(code)
    case WireObject(fields) => Object(FieldsOf(fields))
    case WireArray(element) => Array(TypeOf(element))
    case WireUnknown(raw) => Unknown(raw)
  }

  function FieldsOf(fields: seq<WireField>): (fs: seq<Field>)
    decreases fields, 1
  {
    if fields == [] then [] else [Field(fields[0].name, TypeOf(fields[0].ty))] + FieldsOf(fields[1..])
  }

  predicate ListOkV2(fields: seq<WireField>, depth: nat)
    decreases fields, 1
  {
    fields == [] ||
    (&& 0 !in fields[0].name
     && TypeOkV2(fields[0].ty, depth)
     && 4 + |PutBodyV2(fields[0])| < MAX_COUNT
     && ListOkV2(fields[1..], depth))
  }

  /** An array spends a level of depth too, but only a field list checks it. */
  predicate TypeOkV2(t: WireType, depth: nat)
    decreases t, 0
  {
    match t
    case WireScalar(code) => code != 1 && code != 19
    case WireObject(fields) => FieldsOkV2(fields, depth + 1)
    case WireArray(element) => TypeOkV2(element, depth + 1)
    case WireUnknown(raw) => !Assigned(raw)
  }

  predicate FieldsOkV2(fields: seq<WireField>, depth: nat)
    decreases fields, 2
  {
    depth <= 16 && |fields| < MAX_COUNT && ListOkV2(fields, depth)
  }

  function PutFieldsV2(fields: seq<WireField>, k: seq<byte>): seq<byte>
    requires |fields| < MAX_COUNT
    decreases fields, 2
  {
    PutI32(|fields|, PutListV2(fields, k))
  }

  function PutListV2(fields: seq<WireField>, k: seq<byte>): seq<byte>
    decreases fields, 1
  {
    if fields == [] then k
    else
      var body := PutBodyV2(fields[0]);
      if 4 + |body| < MAX_COUNT then PutI32(4 + |body|, body + PutListV2(fields[1..], k)) else k
  }

  function PutBodyV2(f: WireField): seq<byte>
    decreases f, 1
  {
    PutUtf16(f.name, PutTypeV2(f.ty, f.slack))
  }

  function PutTypeV2(t: WireType, k: seq<byte>): seq<byte>
    decreases t, 0
  {
    match t
    case WireScalar(code) => PutI32(code, k)
    case WireObject(fields) => if |fields| < MAX_COUNT then PutI32(1, PutFieldsV2(fields, k)) else k
    case WireArray(element) => PutI32(19, PutTypeV2(element, k))
    case WireUnknown(raw) => PutI32(raw, k)
  }

  lemma {:induction false} TypeUndoesPutV2(t: WireType, depth: nat, k: seq<byte>)
    requires TypeOkV2(t, depth)
    ensures TypeV2(PutTypeV2(t, k), depth) == Done(TypeOf(t), k)
    decreases t, 0
  {
    hide I32, PutI32, FieldsV2, PutFieldsV2, FieldsOkV2, FieldsOf;
    match t
    case WireScalar(code) => I32UndoesPut(code, k);
    case WireObject(fields) =>
      FieldCountOkV2(fields, depth + 1);
      I32UndoesPut(1, PutFieldsV2(fields, k));
      FieldsUndoPutV2(fields, depth + 1, k);
    case WireArray(element) =>
      I32UndoesPut(19, PutTypeV2(element, k));
      TypeUndoesPutV2(element, depth + 1, k);
    case WireUnknown(raw) => I32UndoesPut(raw, k);
  }

  lemma FieldCountOkV2(fields: seq<WireField>, depth: nat)
    requires FieldsOkV2(fields, depth)
    ensures |fields| < MAX_COUNT
  {
  }

  lemma {:induction false} BodyUndoesPutV2(f: WireField, depth: nat)
    requires 0 !in f.name && TypeOkV2(f.ty, depth)
    ensures FieldBodyV2(PutBodyV2(f), depth) == Done(Field(f.name, TypeOf(f.ty)), f.slack)
    decreases f, 1
  {
    hide TypeV2, PutTypeV2, Utf16Nul, PutUtf16, TypeOkV2, TypeOf;
    Utf16NulUndoesPut(f.name, PutTypeV2(f.ty, f.slack));
    TypeUndoesPutV2(f.ty, depth, f.slack);
  }

  lemma {:induction false} ListUndoesPutV2(fields: seq<WireField>, depth: nat, k: seq<byte>)
    requires ListOkV2(fields, depth)
    ensures FieldListV2(PutListV2(fields, k), depth, |fields|) == Done(FieldsOf(fields), k)
    decreases fields, 2
  {
    hide I32, PutI32, Take, FieldBodyV2, PutBodyV2, TypeOkV2, TypeOf;
    if fields == [] {
    } else {
      var body := PutBodyV2(fields[0]);
      var tail := PutListV2(fields[1..], k);
      I32UndoesPut(4 + |body|, body + tail);
      TakeUndoesAppend(body, tail);
      BodyUndoesPutV2(fields[0], depth);
      ListUndoesPutV2(fields[1..], depth, k);
    }
  }

  /** Any field tree, arrays and slack included, survives the V2 encoding. */
  lemma {:induction false} FieldsUndoPutV2(fields: seq<WireField>, depth: nat, k: seq<byte>)
    requires FieldsOkV2(fields, depth)
    ensures FieldsV2(PutFieldsV2(fields, k), depth) == Done(FieldsOf(fields), k)
    decreases fields, 3
  {
    hide I32, PutI32, FieldListV2, PutListV2, ListOkV2, FieldsOf;
    I32UndoesPut(|fields|, PutListV2(fields, k));
    ListUndoesPutV2(fields, depth, k);
  }

  // ----- What is refused

  /** Counts below zero, fields declared shorter than their own size, and lists nested past sixteen. */
  lemma MalformedListsAreRefused(n: i32, k: seq<byte>, depth: nat, count: nat)
    ensures depth <= 16 && n < 0 ==> FieldsV1(PutI32(n, k), depth) == Failed(Unexpected(V1FieldCount))
    ensures depth <= 16 && n < 0 ==> FieldsV2(PutI32(n, k), depth) == Failed(Unexpected(V2FieldCount))
    ensures depth > 16 ==> FieldsV1(k, depth) == FieldsV2(k, depth) == Failed(Unexpected(NestingDepth))
    ensures count > 0 && n < 4 ==> FieldListV2(PutI32(n, k), depth, count) == Failed(Unexpected(V2FieldSize))
    ensures k != [] && n < 0 ==> Tags(PutI32(n, k), []) == Failed(Unexpected(MetadataTagLength))
  {
    hide I32;
    I32UndoesPut(n, k);
  }

  // ----- Records

  datatype Tag =
    | V2List(fields: seq<WireField>, trailing: seq<byte>)
    | OtherTag(kind: byte, body: seq<byte>)

  /** A record as written: its head, the inline list if there is one, tags, and up to four stray bytes. */
  datatype Record = Record(head: EventMetadata, inline: Option<seq<Field>>, tags: seq<Tag>, stray: seq<byte>)

  function TagKind(t: Tag): byte {
    if t.V2List? then 2 else t.kind
  }

  function TagBody(t: Tag): seq<byte> {
    match t
    case V2List(fields, trailing) => if |fields| < MAX_COUNT then PutFieldsV2(fields, trailing) else trailing
    case OtherTag(_, body) => body
  }

  predicate TagOk(t: Tag) {
    && |TagBody(t)| < MAX_COUNT
    && (t.V2List? ==> FieldsOkV2(t.fields, 0))
    && (t.OtherTag? ==> t.kind != 2)
  }

  /** Tags can only follow an inline list: with nothing after the head there is no list to precede them. */
  predicate RecordOk(r: Record) {
    && 0 !in r.head.providerName && 0 !in r.head.eventName && r.head.fields == []
    && (forall t <- r.tags :: TagOk(t))
    && |r.stray| <= 4
    && match r.inline
       case Some(fields) => FieldsOkV1(fields, 0)
       case None => r.tags == [] && r.stray == []
  }

  function PutTags(tags: seq<Tag>, k: seq<byte>): seq<byte> {
    if tags == [] then k
    else
      var body := TagBody(tags[0]);
      if |body| < MAX_COUNT then PutI32(|body|, PutU8(TagKind(tags[0]), body + PutTags(tags[1..], k))) else k
  }

  function PutHead(h: EventMetadata, k: seq<byte>): seq<byte> {
    PutU32(h.metadataId, PutUtf16(h.providerName, PutI32(h.eventId, PutUtf16(h.eventName,
      PutU64(h.keywords, PutI32(h.version, PutI32(h.level, k)))))))
  }

  function PutRecord(r: Record): seq<byte>
    requires RecordOk(r)
  {
    var tags := PutTags(r.tags, r.stray);
    PutHead(r.head, if r.inline.Some? then PutFieldsV1(r.inline.value, tags) else tags)
  }

  /** The last V2 list among the tags, or `fields` where there is none. */
  function LastList(fields: seq<Field>, tags: seq<Tag>): seq<Field> {
    if tags == [] then fields
    else if tags[|tags| - 1].V2List? then FieldsOf(tags[|tags| - 1].fields)
    else LastList(fields, tags[..|tags| - 1])
  }

  function MeaningOf(r: Record): EventMetadata {
    r.head.(fields := LastList(if r.inline.Some? then r.inline.value else [], r.tags))
  }

  /** Reading tags front to back agrees with looking for the last list from the back. */
  lemma {:induction false} LastListFront(fields: seq<Field>, t: Tag, tags: seq<Tag>)
    ensures LastList(fields, [t] + tags) == LastList(LastList(fields, [t]), tags)
  {
    var all := [t] + tags;
    if tags == [] {
    } else {
      var n := |tags| - 1;
      assert all[..n + 1] == [t] + tags[..n];
      LastListFront(fields, t, tags[..n]);
    }
  }

  lemma {:induction false} TagsUndoPut(tags: seq<Tag>, fields: seq<Field>, stray: seq<byte>)
    requires |stray| <= 4 && forall t <- tags :: TagOk(t)
    ensures Tags(PutTags(tags, stray), fields) == Done(LastList(fields, tags), stray)
    decreases |tags|
  {
    hide I32, PutI32, U8, PutU8, Take, FieldsV2, TagBody, TagOk, LastList;
    if tags == [] {
      LastListOfNone(fields);
    } else {
      var t := tags[0];
      var replaced := LastList(fields, [t]);
      TagsUndoPut(tags[1..], replaced, stray);
      assert [t] + tags[1..] == tags;
      LastListFront(fields, t, tags[1..]);
      TagUndoesPut(t, fields, PutTags(tags[1..], stray));
    }
  }

  lemma LastListOfNone(fields: seq<Field>)
    ensures LastList(fields, []) == fields
  {
  }

  lemma TagUndoesPut(t: Tag, fields: seq<Field>, k: seq<byte>)
    requires TagOk(t)
    ensures |TagBody(t)| < MAX_COUNT
    ensures Tags(PutI32(|TagBody(t)|, PutU8(TagKind(t), TagBody(t) + k)), fields) == Tags(k, LastList(fields, [t]))
  {
    hide I32, PutI32, U8, PutU8, Take, FieldsV2, FieldsOkV2, PutFieldsV2;
    var body := TagBody(t);
    var s := PutI32(|body|, PutU8(TagKind(t), body + k));
    I32UndoesPut(|body|, PutU8(TagKind(t), body + k));
    U8UndoesPut(TagKind(t), body + k);
    TakeUndoesAppend(body, k);
    TagIsLongEnough(s, |body|, body + k, TagKind(t));
    assert [t][..0] == [];
    assert LastList(fields, [t]) == if t.V2List? then FieldsOf(t.fields) else fields;
    if t.V2List? {
      FieldCountOkV2(t.fields, 0);
      FieldsUndoPutV2(t.fields, 0, t.trailing);
    }
  }

  lemma TagIsLongEnough(s: seq<byte>, n: i32, k: seq<byte>, kind: byte)
    requires s == PutI32(n, PutU8(kind, k))
    ensures |s| > 4
  {
  }

  lemma HeadUndoesPut(h: EventMetadata, k: seq<byte>)
    requires 0 !in h.providerName && 0 !in h.eventName && h.fields == []
    ensures RecordHead(PutHead(h, k)) == Done(h, k)
  {
    hide U32, U64, I32, Utf16Nul, PutU32, PutU64, PutI32, PutUtf16;
    var s6 := PutI32(h.level, k);
    var s5 := PutI32(h.version, s6);
    var s4 := PutU64(h.keywords, s5);
    var s3 := PutUtf16(h.eventName, s4);
    var s2 := PutI32(h.eventId, s3);
    var s1 := PutUtf16(h.providerName, s2);
    U32UndoesPut(h.metadataId, s1);
    Utf16NulUndoesPut(h.providerName, s2);
    I32UndoesPut(h.eventId, s3);
    Utf16NulUndoesPut(h.eventName, s4);
    U64UndoesPut(h.keywords, s5);
    I32UndoesPut(h.version, s6);
    I32UndoesPut(h.level, k);
  }

  /** A written record means what it says, whatever tags and stray bytes follow the inline list. */
  lemma RecordUndoesPut(r: Record)
    requires RecordOk(r)
    ensures ParseMetadata(PutRecord(r)).Done? && ParseMetadata(PutRecord(r)).value == MeaningOf(r)
  {
    hide RecordHead, PutHead, FieldsV1, PutFieldsV1, Tags, PutTags, LastList, FieldsOkV1, TagOk;
    var tags := PutTags(r.tags, r.stray);
    match r.inline
    case Some(fields) =>
      InlineCountOk(fields);
      var s1 := PutFieldsV1(fields, tags);
      HeadUndoesPut(r.head, s1);
      FieldsUndoPutV1(fields, 0, tags);
      InlineNotEmpty(fields, tags);
      TagsUndoPut(r.tags, fields, r.stray);
    case None =>
      HeadUndoesPut(r.head, tags);
      TagsUndoPut(r.tags, [], r.stray);
      PutNoTags();
  }

  lemma InlineCountOk(fields: seq<Field>)
    requires FieldsOkV1(fields, 0)
    ensures |fields| < MAX_COUNT
  {
  }

  lemma InlineNotEmpty(fields: seq<Field>, k: seq<byte>)
    requires |fields| < MAX_COUNT
    ensures PutFieldsV1(fields, k) != []
  {
  }

  lemma PutNoTags()
    ensures PutTags([], []) == []
  {
  }
}
