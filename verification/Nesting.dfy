/**
 How deep the recursive readers of a metadata record go (src/nettrace/metadata.rs). Each reader below follows the
 calls of the decoding function of the same name and reports the greatest nesting depth any of them is given, and the
 longest run of array codes leading up to one.
 */
module Nesting {
  import opened Wire
  import opened Decode
  import opened Schema

  /** The greatest depth reached, and the most array codes read one straight after another. */
  datatype Reach = Reach(depth: nat, arrays: nat)

  function Larger(a: nat, b: nat): nat {
    if a < b then b else a
  }

  function Join(a: Reach, b: Reach): Reach {
    Reach(Larger(a.depth, b.depth), Larger(a.arrays, b.arrays))
  }

  // ----- V1

  ghost function ReachFieldsV1(s: seq<byte>, depth: nat): Reach
    decreases |s|, 2
  {
    match I32(s)
    case Done(count, k) =>
      if depth > MAX_TYPE_DEPTH || count < 0 then Reach(depth, 0)
      else Join(Reach(depth, 0), ReachListV1(k, depth, count))
    case Failed(_) => Reach(depth, 0)
  }

  ghost function ReachListV1(s: seq<byte>, depth: nat, count: nat): Reach
    decreases |s|, 1
  {
    if count == 0 then Reach(depth, 0)
    else
      var here := ReachTypeV1(s, depth);
      match TypeV1(s, depth)
      case Failed(_) => here
      case Done(_, k1) =>
        match Utf16Nul(k1)
        case Failed(_) => here
        case Done(_, k2) => Join(here, ReachListV1(k2, depth, count - 1))
  }

  ghost function ReachTypeV1(s: seq<byte>, depth: nat): Reach
    decreases |s|, 0
  {
    match I32(s)
    case Done(raw, k) => if raw == OBJECT then ReachFieldsV1(k, depth + 1) else Reach(depth, 0)
    case Failed(_) => Reach(depth, 0)
  }

  /** V1 never goes further than the call that refuses to. */
  lemma {:induction false} FieldsV1StayWithin(s: seq<byte>, depth: nat)
    requires depth <= 17
    ensures ReachFieldsV1(s, depth).depth <= 17
    decreases |s|, 2
  {
    hide I32;
    var count := I32(s);
    if count.Done? && depth <= 16 && count.value >= 0 {
      ListV1StaysWithin(count.rest, depth, count.value);
    }
  }

  lemma {:induction false} ListV1StaysWithin(s: seq<byte>, depth: nat, count: nat)
    requires depth <= 16
    ensures ReachListV1(s, depth, count).depth <= 17
    decreases |s|, 1
  {
    hide Utf16Nul, TypeV1, ReachTypeV1;
    if count == 0 {
    } else {
      TypeV1StaysWithin(s, depth);
      var ty := TypeV1(s, depth);
      if ty.Done? && Utf16Nul(ty.rest).Done? {
        ListV1StaysWithin(Utf16Nul(ty.rest).rest, depth, count - 1);
      }
    }
  }

  lemma {:induction false} TypeV1StaysWithin(s: seq<byte>, depth: nat)
    requires depth <= 16
    ensures ReachTypeV1(s, depth).depth <= 17
    decreases |s|, 0
  {
    hide I32, ReachFieldsV1;
    var raw := I32(s);
    if raw.Done? && raw.value == OBJECT {
      FieldsV1StayWithin(raw.rest, depth + 1);
    }
  }

  // ----- V2

  /** `arrays` is the run of array codes just read. */
  ghost function ReachFieldsV2(s: seq<byte>, depth: nat, arrays: nat): Reach
    decreases |s|, 2
  {
    match I32(s)
    case Done(count, k) =>
      if depth > MAX_TYPE_DEPTH || count < 0 then Reach(depth, arrays)
      else Join(Reach(depth, arrays), ReachListV2(k, depth, count))
    case Failed(_) => Reach(depth, arrays)
  }

  ghost function ReachListV2(s: seq<byte>, depth: nat, count: nat): Reach
    decreases |s|, 1
  {
    if count == 0 then Reach(depth, 0)
    else
      match I32(s)
      case Failed(_) => Reach(depth, 0)
      case Done(size, k1) =>
        if size < 4 then Reach(depth, 0)
        else
          match Take(k1, size - 4)
          case Failed(_) => Reach(depth, 0)
          case Done(body, k2) =>
            if FieldBodyV2(body, depth).Failed? then ReachBodyV2(body, depth)
            else Join(ReachBodyV2(body, depth), ReachListV2(k2, depth, count - 1))
  }

  ghost function ReachBodyV2(body: seq<byte>, depth: nat): Reach
    decreases |body|, 1
  {
    match Utf16Nul(body)
    case Done(_, b1) => ReachTypeV2(b1, depth, 0)
    case Failed(_) => Reach(depth, 0)
  }

  ghost function ReachTypeV2(s: seq<byte>, depth: nat, arrays: nat): Reach
    decreases |s|, 0
  {
    match I32(s)
    case Done(raw, k) =>
      if raw == ARRAY then Join(Reach(depth, arrays), ReachTypeV2(k, depth + 1, arrays + 1))
      else if raw == OBJECT then Join(Reach(depth, arrays), ReachFieldsV2(k, depth + 1, arrays))
      else Reach(depth, arrays)
    case Failed(_) => Reach(depth, arrays)
  }

  /** Past the limit V2 goes only as far as array codes follow one another. */
  lemma {:induction false} FieldsV2ExceedByArrays(s: seq<byte>, depth: nat, arrays: nat)
    requires depth <= 17 + arrays
    ensures var r := ReachFieldsV2(s, depth, arrays); r.depth <= 17 + r.arrays
    decreases |s|, 2
  {
    hide I32, ReachListV2;
    var count := I32(s);
    if count.Done? && depth <= 16 && count.value >= 0 {
      ListV2ExceedsByArrays(count.rest, depth, count.value);
    }
  }

  lemma {:induction false} ListV2ExceedsByArrays(s: seq<byte>, depth: nat, count: nat)
    requires depth <= 16
    ensures var r := ReachListV2(s, depth, count); r.depth <= 17 + r.arrays
    decreases |s|, 1
  {
    hide I32, Take, FieldBodyV2, ReachBodyV2;
    if count == 0 {
    } else {
      var size := I32(s);
      if size.Done? && size.value >= 4 {
        var body := Take(size.rest, size.value - 4);
        if body.Done? {
          BodyV2ExceedsByArrays(body.value, depth);
          ListV2ExceedsByArrays(body.rest, depth, count - 1);
        }
      }
    }
  }

  lemma {:induction false} BodyV2ExceedsByArrays(body: seq<byte>, depth: nat)
    requires depth <= 16
    ensures var r := ReachBodyV2(body, depth); r.depth <= 17 + r.arrays
    decreases |body|, 1
  {
    hide Utf16Nul, ReachTypeV2;
    if Utf16Nul(body).Done? {
      TypeV2ExceedsByArrays(Utf16Nul(body).rest, depth, 0);
    }
  }

  lemma {:induction false} TypeV2ExceedsByArrays(s: seq<byte>, depth: nat, arrays: nat)
    requires depth <= 16 + arrays
    ensures var r := ReachTypeV2(s, depth, arrays); r.depth <= 17 + r.arrays
    decreases |s|, 0
  {
    hide I32, ReachFieldsV2;
    var raw := I32(s);
    if raw.Done? && raw.value == ARRAY {
      TypeV2ExceedsByArrays(raw.rest, depth + 1, arrays + 1);
    } else if raw.Done? && raw.value == OBJECT {
      FieldsV2ExceedByArrays(raw.rest, depth + 1, arrays);
    }
  }

  // ----- How far the readers go for a list that parses

  /** Levels of objects and arrays inside a type. */
  function NestingOf(ty: FieldType): nat {
    match ty
    case Object(fields) => 1 + NestingIn(fields)
    case Array(element) => 1 + NestingOf(element)
    case _ => 0
  }

  function NestingIn(fields: seq<Field>): nat {
    if fields == [] then 0 else Larger(NestingOf(fields[0].ty), NestingIn(fields[1..]))
  }

  /** An inline list is accepted only if its objects nest within the limit. */
  lemma {:induction false} FieldsV1NestWithin(s: seq<byte>, depth: nat)
    requires FieldsV1(s, depth).Done?
    ensures depth + NestingIn(FieldsV1(s, depth).value) <= 16
    decreases |s|, 2
  {
    hide I32, FieldListV1, NestingIn;
    ListV1NestsWithin(I32(s).rest, depth, I32(s).value);
  }

  lemma {:induction false} ListV1NestsWithin(s: seq<byte>, depth: nat, count: nat)
    requires FieldListV1(s, depth, count).Done? && depth <= 16
    ensures depth + NestingIn(FieldListV1(s, depth, count).value) <= 16
    decreases |s|, 1
  {
    hide Utf16Nul, TypeV1, NestingOf;
    if count == 0 {
    } else {
      TypeV1NestsWithin(s, depth);
      var ty := TypeV1(s, depth);
      var name := Utf16Nul(ty.rest);
      ListV1NestsWithin(name.rest, depth, count - 1);
      var first, others := Field(name.value, ty.value), FieldListV1(name.rest, depth, count - 1).value;
      assert ([first] + others)[1..] == others;
    }
  }

  lemma {:induction false} TypeV1NestsWithin(s: seq<byte>, depth: nat)
    requires TypeV1(s, depth).Done? && depth <= 16
    ensures depth + NestingOf(TypeV1(s, depth).value) <= 16
    decreases |s|, 0
  {
    hide I32, FieldsV1, NestingIn;
    if I32(s).value == OBJECT {
      FieldsV1NestWithin(I32(s).rest, depth + 1);
    }
  }

  /** The depth reached is the nesting of what was read, arrays counted like objects. */
  lemma {:induction false} FieldsV2ReachTheirNesting(s: seq<byte>, depth: nat, arrays: nat)
    requires FieldsV2(s, depth).Done?
    ensures ReachFieldsV2(s, depth, arrays).depth == depth + NestingIn(FieldsV2(s, depth).value)
    decreases |s|, 2
  {
    hide I32, ReachListV2, FieldListV2, NestingIn;
    var count := I32(s);
    ListV2ReachesItsNesting(count.rest, depth, count.value);
  }

  lemma {:induction false} ListV2ReachesItsNesting(s: seq<byte>, depth: nat, count: nat)
    requires FieldListV2(s, depth, count).Done?
    ensures ReachListV2(s, depth, count).depth == depth + NestingIn(FieldListV2(s, depth, count).value)
    decreases |s|, 1
  {
    hide I32, Take, FieldBodyV2, ReachBodyV2, NestingOf;
    if count == 0 {
    } else {
      var size := I32(s);
      var body := Take(size.rest, size.value - 4);
      BodyV2ReachesItsNesting(body.value, depth);
      ListV2ReachesItsNesting(body.rest, depth, count - 1);
      var first, others := FieldBodyV2(body.value, depth).value, FieldListV2(body.rest, depth, count - 1).value;
      assert ([first] + others)[1..] == others;
    }
  }

  lemma {:induction false} BodyV2ReachesItsNesting(body: seq<byte>, depth: nat)
    requires FieldBodyV2(body, depth).Done?
    ensures ReachBodyV2(body, depth).depth == depth + NestingOf(FieldBodyV2(body, depth).value.ty)
    decreases |body|, 1
  {
    hide Utf16Nul, ReachTypeV2, TypeV2, NestingOf;
    TypeV2ReachesItsNesting(Utf16Nul(body).rest, depth, 0);
  }

  lemma {:induction false} TypeV2ReachesItsNesting(s: seq<byte>, depth: nat, arrays: nat)
    requires TypeV2(s, depth).Done?
    ensures ReachTypeV2(s, depth, arrays).depth == depth + NestingOf(TypeV2(s, depth).value)
    decreases |s|, 0
  {
    hide I32, ReachFieldsV2, FieldsV2, NestingIn;
    var raw := I32(s);
    if raw.value == ARRAY {
      TypeV2ReachesItsNesting(raw.rest, depth + 1, arrays + 1);
    } else if raw.value == OBJECT {
      FieldsV2ReachTheirNesting(raw.rest, depth + 1, arrays);
    }
  }

  /** So a list that is accepted took the readers past the limit exactly if its types nest deeper than that. */
  lemma LimitExceededExactly(s: seq<byte>)
    requires FieldsV2(s, 0).Done?
    ensures ReachFieldsV2(s, 0, 0).depth > 16 <==> NestingIn(FieldsV2(s, 0).value) > 16
  {
    FieldsV2ReachTheirNesting(s, 0, 0);
  }

  /** `n` array codes and a number's. */
  function PutArrays(n: nat, k: seq<byte>): seq<byte> {
    if n == 0 then PutI32(INT32, k) else PutI32(ARRAY, PutArrays(n - 1, k))
  }

  function Nested(n: nat): FieldType {
    if n == 0 then Scalar(INT32) else Array(Nested(n - 1))
  }

  /** And they are followed however many there are: no limit stops a run of arrays. */
  lemma {:induction false} ArraysNestWithoutLimit(n: nat, depth: nat, arrays: nat, k: seq<byte>)
    ensures TypeV2(PutArrays(n, k), depth) == Done(Nested(n), k)
    ensures ReachTypeV2(PutArrays(n, k), depth, arrays) == Reach(depth + n, arrays + n)
    decreases n
  {
    hide I32, PutI32;
    if n == 0 {
      I32UndoesPut(INT32, k);
    } else {
      I32UndoesPut(ARRAY, PutArrays(n - 1, k));
      ArraysNestWithoutLimit(n - 1, depth + 1, arrays + 1, k);
    }
  }
}
