/**
 Type-directed payload decoding (src/nettrace/payload.rs) as functions. Fields are concatenated in metadata
 order; only leaves take up bytes.
 */
module Values {
  import opened Wire
  import opened Decode
  import opened Schema

  type Name = seq<u16>

  /**
   A decoded value. Floating-point numbers are kept as the bits they arrived as. The fields of an object inside
   an array are kept as a map; the source exposes only its values, in no particular order.
   */
  datatype Value =
    | Bool(flag: bool)
    | Char(unit: u16)
    | Int(signed: i64)
    | UInt(unsigned: u64)
    | Float32(bits32: u32)
    | Float64(bits64: u64)
    | Str(units: seq<u16>)
    | Guid(guid: seq<byte>)
    | Decimal(decimal: seq<byte>)
    | DateTime(parts: seq<i16>)
    | List(values: seq<Value>)
    | Nested(fields: map<Name, Value>)

  /** Fixed wire width, where there is one. */
  function FixedSize(code: TypeCode): Option<nat> {
    if code == SBYTE || code == BYTE then Some(1)
    else if code == CHAR || code == INT16 || code == UINT16 then Some(2)
    else if code == BOOLEAN || code == INT32 || code == UINT32 || code == SINGLE then Some(4)
    else if code == INT64 || code == UINT64 || code == DOUBLE then Some(8)
    else if code == DECIMAL || code == GUID || code == DATE_TIME then Some(16)
    else None
  }

  function DecodeWord(code: TypeCode, s: seq<byte>): Parsed<Value> {
    if code == BOOLEAN then var (v, k) :- I32(s); Done(Bool(v != 0), k)
    else if code == CHAR then var (v, k) :- U16(s); Done(Char(v), k)
    else if code == SBYTE then var (v, k) :- U8(s); Done(Int(Signed(v, 0x100)), k)
    else if code == BYTE then var (v, k) :- U8(s); Done(UInt(v), k)
    else if code == INT16 then var (v, k) :- I16(s); Done(Int(v), k)
    else if code == UINT16 then var (v, k) :- U16(s); Done(UInt(v), k)
    else if code == INT32 then var (v, k) :- I32(s); Done(Int(v), k)
    else if code == UINT32 then var (v, k) :- U32(s); Done(UInt(v), k)
    else if code == INT64 then var (v, k) :- I64(s); Done(Int(v), k)
    else if code == UINT64 then var (v, k) :- U64(s); Done(UInt(v), k)
    else if code == SINGLE then var (v, k) :- U32(s); Done(Float32(v), k)
    else if code == DOUBLE then var (v, k) :- U64(s); Done(Float64(v), k)
    else Failed(Unexpected(ScalarFieldType))
  }

  function DecodeScalar(code: TypeCode, s: seq<byte>): Parsed<Value> {
    if code == DECIMAL then var (b, k) :- Take(s, 16); Done(Decimal(b), k)
    else if code == DATE_TIME then var (parts, k) :- I16s(s, 8); Done(DateTime(parts), k)
    else if code == GUID then var (b, k) :- Take(s, 16); Done(Guid(b), k)
    else if code == STRING then var (units, k) :- Utf16Nul(s); Done(Str(units), k)
    else DecodeWord(code, s)
  }

  function DecodeValue(ty: FieldType, s: seq<byte>): Parsed<Value>
    decreases ty, 0
  {
    match ty
    case Scalar(code) => DecodeScalar(code, s)
    case Array(element) =>
      var (count, k) :- U16(s);
      var (values, k2) :- DecodeElements(element, k, count);
      Done(List(values), k2)
    case Object(children) =>
      var (nested, k) :- DecodeInto(children, s, map[]);
      Done(Nested(nested), k)
    case Unknown(_) => Failed(Unexpected(PayloadFieldType))
  }

  function DecodeElements(element: FieldType, s: seq<byte>, count: nat): Parsed<seq<Value>>
    decreases element, 1, count
  {
    if count == 0 then Done([], s)
    else
      var (value, k) :- DecodeValue(element, s);
      After([value], DecodeElements(element, k, count - 1))
  }

  function DecodeInto(fields: seq<Field>, s: seq<byte>, out: map<Name, Value>): Parsed<map<Name, Value>>
    decreases fields
  {
    if fields == [] then Done(out, s)
    else
      var (out', k) :- DecodeField(fields[0], s, out);
      DecodeInto(fields[1..], k, out')
  }

  function DecodeField(field: Field, s: seq<byte>, out: map<Name, Value>): Parsed<map<Name, Value>>
    decreases field
  {
    match field.ty
    case Object(children) => DecodeInto(children, s, out)
    case _ =>
      var (value, k) :- DecodeValue(field.ty, s);
      Done(out[field.name := value], k)
  }

  // ----- Flattening

  /** The leaves of a field tree, in wire order. */
  function Flatten(fields: seq<Field>): (leaves: seq<Field>)
    ensures forall leaf <- leaves :: !leaf.ty.Object?
    decreases fields
  {
    if fields == [] then []
    else (match fields[0].ty
          case Object(children) => Flatten(children)
          case _ => [fields[0]]) + Flatten(fields[1..])
  }

  lemma {:induction false} DecodeAppend(a: seq<Field>, b: seq<Field>, s: seq<byte>, out: map<Name, Value>)
    ensures DecodeInto(a + b, s, out) ==
            match DecodeInto(a, s, out)
            case Done(out', k) => DecodeInto(b, k, out')
            case Failed(e) => Failed(e)
    decreases |a|
  {
    hide DecodeField;
    if a == [] {
      assert a + b == b;
    } else {
      assert (a + b)[1..] == a[1..] + b;
      var first := DecodeField(a[0], s, out);
      if first.Done? {
        DecodeAppend(a[1..], b, first.rest, first.value);
      }
    }
  }

  /** Object levels are invisible on the wire: a tree decodes exactly as its list of leaves does. */
  lemma {:induction false} DecodeFlattened(fields: seq<Field>, s: seq<byte>, out: map<Name, Value>)
    ensures DecodeInto(fields, s, out) == DecodeInto(Flatten(fields), s, out)
    decreases fields
  {
    hide DecodeValue;
    if fields == [] {
    } else {
      var f := fields[0];
      var front := if f.ty.Object? then Flatten(f.ty.fields) else [f];
      if f.ty.Object? {
        DecodeFlattened(f.ty.fields, s, out);
      } else {
        DecodeOne(f, s, out);
      }
      var first := DecodeField(f, s, out);
      assert first == DecodeInto(front, s, out);
      if first.Done? {
        DecodeFlattened(fields[1..], first.rest, first.value);
      }
      DecodeAppend(front, Flatten(fields[1..]), s, out);
    }
  }

  lemma DecodeOne(f: Field, s: seq<byte>, out: map<Name, Value>)
    ensures DecodeInto([f], s, out) == DecodeField(f, s, out)
  {
    hide DecodeField;
    assert [f][1..] == [];
  }

  /** A leaf of unknown type stops the decoding; nothing after it is read from the wrong offset. */
  lemma {:induction false} UnknownLeafFails(fields: seq<Field>, i: nat, s: seq<byte>, out: map<Name, Value>)
    requires i < |Flatten(fields)| && Flatten(fields)[i].ty.Unknown?
    ensures DecodeInto(fields, s, out).Failed?
  {
    DecodeFlattened(fields, s, out);
    UnknownInList(Flatten(fields), i, s, out);
  }

  lemma {:induction false} UnknownInList(leaves: seq<Field>, i: nat, s: seq<byte>, out: map<Name, Value>)
    requires i < |leaves| && leaves[i].ty.Unknown?
    ensures DecodeInto(leaves, s, out).Failed?
    decreases i
  {
    hide DecodeScalar, DecodeElements;
    var first := DecodeField(leaves[0], s, out);
    if i == 0 {
      assert DecodeValue(leaves[0].ty, s).Failed?;
    } else {
      assert leaves[1..][i - 1] == leaves[i];
      if first.Done? {
        UnknownInList(leaves[1..], i - 1, first.rest, first.value);
      }
    }
  }

  /** Every scalar of fixed width takes exactly that many bytes, and any bytes will do. */
  lemma ScalarTakesItsWidth(code: TypeCode, s: seq<byte>)
    requires FixedSize(code).Some?
    ensures DecodeScalar(code, s).Done? <==> FixedSize(code).value <= |s|
    ensures DecodeScalar(code, s).Done? ==> |DecodeScalar(code, s).rest| + FixedSize(code).value == |s|
  {
    hide I16s;
    if code == DATE_TIME && |s| >= 16 {
      I16sEnough(s, 8);
    }
  }

  /** Any number but zero is true. */
  lemma BooleansAreNumbers(v: i32, k: seq<byte>)
    ensures DecodeScalar(3, PutI32(v, k)) == Done(Bool(v != 0), k)
  {
    hide I32, PutI32;
    I32UndoesPut(v, k);
  }

  // ----- Encoding

  /** A value as its writer has it: an object inside an array is written leaf by leaf. */
  datatype Written =
    | Plain(value: Value)
    | Items(items: seq<Written>)
    | Leaves(leaves: seq<Written>)

  /** `w` is what a field of type `ty` can be written as. */
  predicate HasType(ty: FieldType, w: Written)
    decreases w
  {
    match ty
    case Scalar(code) => w.Plain? && HasScalarType(code, w.value)
    case Array(element) => w.Items? && |w.items| < 0x1_0000 && forall x <- w.items :: HasType(element, x)
    case Object(children) =>
      var leaves := Flatten(children);
      w.Leaves? && |w.leaves| == |leaves| && forall i | 0 <= i < |leaves| :: HasType(leaves[i].ty, w.leaves[i])
    case Unknown(_) => false
  }

  /** The value a reader is to make of it; of two leaves of one name an object keeps the later. */
  function Meaning(ty: FieldType, w: Written): Value
    requires HasType(ty, w)
    decreases w, 0
  {
    match ty
    case Scalar(_) => w.value
    case Array(element) => List(ElementsMean(element, w.items))
    case Object(children) => Nested(Bind(Flatten(children), LeavesMean(Flatten(children), w.leaves), map[]))
  }

  function ElementsMean(element: FieldType, items: seq<Written>): (vs: seq<Value>)
    requires forall x <- items :: HasType(element, x)
    ensures |vs| == |items|
    decreases items, 1
  {
    if items == [] then [] else [Meaning(element, items[0])] + ElementsMean(element, items[1..])
  }

  function LeavesMean(leaves: seq<Field>, ws: seq<Written>): (vs: seq<Value>)
    requires LeavesHaveTypes(leaves, ws)
    ensures |vs| == |leaves|
    decreases ws, 1
  {
    if leaves == [] then [] else [Meaning(leaves[0].ty, ws[0])] + LeavesMean(leaves[1..], ws[1..])
  }

  /** The format numbers its scalar types from 3, a Boolean, to 18, a string. */
  predicate HasScalarType(code: TypeCode, v: Value) {
    match v
    case Bool(_) => code == 3
    case Char(_) => code == 4
    case Int(i) => (code == 5 && -0x80 <= i < 0x80) || (code == 7 && -0x8000 <= i < 0x8000)
      || (code == 9 && -0x8000_0000 <= i < 0x8000_0000) || code == 11
    case UInt(u) => (code == 6 && u < 0x100) || (code == 8 && u < 0x1_0000)
      || (code == 10 && u < TWO_32) || code == 12
    case Float32(_) => code == 13
    case Float64(_) => code == 14
    case Str(units) => code == 18 && 0 !in units
    case Guid(b) => code == 17 && |b| == 16
    case Decimal(b) => code == 15 && |b| == 16
    case DateTime(parts) => code == 16 && |parts| == 8
    case List(_) => false
    case Nested(_) => false
  }

  function PutScalar(code: TypeCode, v: Value, k: seq<byte>): seq<byte>
    requires HasScalarType(code, v)
  {
    match v
    case Bool(flag) => PutI32(if flag then 1 else 0, k)
    case Char(unit) => PutU16(unit, k)
    case Int(i) =>
      if code == 5 then PutU8(Unsigned(i, 0x100), k)
      else if code == 7 then PutI16(i, k)
      else if code == 9 then PutI32(i, k)
      else PutI64(i, k)
    case UInt(u) =>
      if code == 6 then PutU8(u, k)
      else if code == 8 then PutU16(u, k)
      else if code == 10 then PutU32(u, k)
      else PutU64(u, k)
    case Float32(bits) => PutU32(bits, k)
    case Float64(bits) => PutU64(bits, k)
    case Str(units) => PutUtf16(units, k)
    case Guid(b) => b + k
    case Decimal(b) => b + k
    case DateTime(parts) => PutI16s(parts, k)
  }

  function PutValue(ty: FieldType, w: Written, k: seq<byte>): seq<byte>
    requires HasType(ty, w)
    decreases w, 0
  {
    match ty
    case Scalar(code) => PutScalar(code, w.value, k)
    case Array(element) => PutU16(|w.items|, PutElements(element, w.items, k))
    case Object(children) => PutLeaves(Flatten(children), w.leaves, k)
  }

  function PutElements(element: FieldType, items: seq<Written>, k: seq<byte>): seq<byte>
    requires forall x <- items :: HasType(element, x)
    decreases items, 1
  {
    if items == [] then k else PutValue(element, items[0], PutElements(element, items[1..], k))
  }

  predicate LeavesHaveTypes(leaves: seq<Field>, ws: seq<Written>) {
    |leaves| == |ws| && forall i :: 0 <= i < |leaves| ==> HasType(leaves[i].ty, ws[i])
  }

  function PutLeaves(leaves: seq<Field>, ws: seq<Written>, k: seq<byte>): seq<byte>
    requires LeavesHaveTypes(leaves, ws)
    decreases ws, 1
  {
    if leaves == [] then k else PutValue(leaves[0].ty, ws[0], PutLeaves(leaves[1..], ws[1..], k))
  }

  /** Names bound in order, so a later leaf of the same name replaces an earlier one. */
  function Bind(leaves: seq<Field>, vs: seq<Value>, out: map<Name, Value>): map<Name, Value>
    requires |leaves| == |vs|
  {
    if leaves == [] then out else Bind(leaves[1..], vs[1..], out[leaves[0].name := vs[0]])
  }

  /** A name no leaf carries keeps what it had. */
  lemma {:induction false} BindKeepsOthers(leaves: seq<Field>, vs: seq<Value>, out: map<Name, Value>, name: Name)
    requires |leaves| == |vs| && forall i :: 0 <= i < |leaves| ==> leaves[i].name != name
    ensures name in Bind(leaves, vs, out) <==> name in out
    ensures name in out ==> Bind(leaves, vs, out)[name] == out[name]
    decreases |leaves|
  {
    if leaves == [] {
    } else {
      BindKeepsOthers(leaves[1..], vs[1..], out[leaves[0].name := vs[0]], name);
    }
  }

  /** The last leaf of a name is the one whose value is kept. */
  lemma {:induction false} BindLastWins(leaves: seq<Field>, vs: seq<Value>, out: map<Name, Value>, i: nat)
    requires |leaves| == |vs| && i < |leaves|
    requires forall j :: i < j < |leaves| ==> leaves[j].name != leaves[i].name
    ensures leaves[i].name in Bind(leaves, vs, out)
    ensures Bind(leaves, vs, out)[leaves[i].name] == vs[i]
    decreases i
  {
    var out' := out[leaves[0].name := vs[0]];
    if i == 0 {
      BindKeepsOthers(leaves[1..], vs[1..], out', leaves[0].name);
    } else {
      BindLastWins(leaves[1..], vs[1..], out', i - 1);
    }
  }

  // ----- Decoding undoes encoding

  lemma WordUndoesPut(code: TypeCode, v: Value, k: seq<byte>)
    requires HasScalarType(code, v)
    requires v.Bool? || v.Char? || v.Int? || v.UInt? || v.Float32? || v.Float64?
    ensures DecodeWord(code, PutScalar(code, v, k)) == Done(v, k)
  {
    hide U8, U16, U32, U64, I16, I32, I64, PutU8, PutU16, PutU32, PutU64, PutI16, PutI32, PutI64, PutUtf16, PutI16s;
    match v
    case Bool(flag) => I32UndoesPut(if flag then 1 else 0, k);
    case Char(unit) => U16UndoesPut(unit, k);
    case Int(i) =>
      if code == 5 { U8UndoesPut(Unsigned(i, 0x100), k); }
      else if code == 7 { I16UndoesPut(i, k); }
      else if code == 9 { I32UndoesPut(i, k); }
      else { I64UndoesPut(i, k); }
    case UInt(u) =>
      if code == 6 { U8UndoesPut(u, k); }
      else if code == 8 { U16UndoesPut(u, k); }
      else if code == 10 { U32UndoesPut(u, k); }
      else { U64UndoesPut(u, k); }
    case Float32(bits) => U32UndoesPut(bits, k);
    case Float64(bits) => U64UndoesPut(bits, k);
  }

  lemma ScalarUndoesPut(code: TypeCode, v: Value, k: seq<byte>)
    requires HasScalarType(code, v)
    ensures DecodeScalar(code, PutScalar(code, v, k)) == Done(v, k)
  {
    hide DecodeWord, Take, Utf16Nul, I16s, PutUtf16, PutI16s;
    match v
    case Str(units) => Utf16NulUndoesPut(units, k);
    case Guid(b) => TakeUndoesAppend(b, k);
    case Decimal(b) => TakeUndoesAppend(b, k);
    case DateTime(parts) => I16sUndoPut(parts, k);
    case _ => WordUndoesPut(code, v, k);
  }

  /** A value of any type a payload can hold reads back, objects inside arrays included. */
  lemma {:induction false} ValueUndoesPut(ty: FieldType, w: Written, k: seq<byte>)
    requires HasType(ty, w)
    ensures DecodeValue(ty, PutValue(ty, w, k)) == Done(Meaning(ty, w), k)
    decreases w, 0
  {
    hide DecodeScalar, PutScalar, HasScalarType, U16, PutU16, DecodeElements, PutElements, ElementsMean, DecodeInto,
      PutLeaves, LeavesMean, Bind, Flatten;
    match ty
    case Scalar(code) => ScalarUndoesPut(code, w.value, k);
    case Array(element) =>
      U16UndoesPut(|w.items|, PutElements(element, w.items, k));
      ElementsUndoPut(element, w.items, k);
    case Object(children) =>
      DecodeFlattened(children, PutLeaves(Flatten(children), w.leaves, k), map[]);
      LeavesUndoPut(Flatten(children), w.leaves, k, map[]);
  }

  lemma {:induction false} ElementsUndoPut(element: FieldType, items: seq<Written>, k: seq<byte>)
    requires forall x <- items :: HasType(element, x)
    ensures DecodeElements(element, PutElements(element, items, k), |items|) == Done(ElementsMean(element, items), k)
    decreases items, 1
  {
    hide DecodeValue, PutValue, HasType, Meaning;
    if items == [] {
    } else {
      ValueUndoesPut(element, items[0], PutElements(element, items[1..], k));
      ElementsUndoPut(element, items[1..], k);
    }
  }

  lemma {:induction false} LeavesUndoPut(leaves: seq<Field>, ws: seq<Written>, k: seq<byte>, out: map<Name, Value>)
    requires LeavesHaveTypes(leaves, ws) && forall leaf <- leaves :: !leaf.ty.Object?
    ensures DecodeInto(leaves, PutLeaves(leaves, ws, k), out) == Done(Bind(leaves, LeavesMean(leaves, ws), out), k)
    decreases ws, 1
  {
    hide DecodeValue, PutValue, HasType, Meaning;
    if leaves == [] {
    } else {
      var tail, v := PutLeaves(leaves[1..], ws[1..], k), Meaning(leaves[0].ty, ws[0]);
      ValueUndoesPut(leaves[0].ty, ws[0], tail);
      LeavesUndoPut(leaves[1..], ws[1..], k, out[leaves[0].name := v]);
      assert LeavesMean(leaves, ws)[1..] == LeavesMean(leaves[1..], ws[1..]);
    }
  }

  /** A payload written leaf by leaf decodes against the nested field tree to what its leaves mean. */
  lemma PayloadUndoesPut(fields: seq<Field>, ws: seq<Written>, k: seq<byte>, out: map<Name, Value>)
    requires LeavesHaveTypes(Flatten(fields), ws)
    ensures DecodeInto(fields, PutLeaves(Flatten(fields), ws, k), out)
         == Done(Bind(Flatten(fields), LeavesMean(Flatten(fields), ws), out), k)
  {
    hide PutLeaves, LeavesMean, Bind;
    DecodeFlattened(fields, PutLeaves(Flatten(fields), ws, k), out);
    LeavesUndoPut(Flatten(fields), ws, k, out);
  }

  /** An inline field list takes an array for a scalar, which no payload can then supply. */
  lemma InlineArraysAreRefused(k: seq<byte>, depth: nat, s: seq<byte>)
    ensures TypeV1(PutI32(19, k), depth) == Done(Scalar(19), k)
    ensures DecodeValue(Scalar(19), s) == Failed(Unexpected(ScalarFieldType))
  {
    hide I32, PutI32;
    I32UndoesPut(19, k);
  }
}
