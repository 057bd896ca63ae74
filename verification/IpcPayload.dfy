/**
 Command payloads (src/ipc/encode.rs, src/ipc/decode.rs): little-endian numbers, and strings as a count of UTF-16
 code units, terminator included, before the units. A count of zero is the null string. Strings are sequences of
 code units here.
 */
module IpcPayload {
  import opened Wire
  import Decode

  datatype Item = Number32(v: u32) | Number64(w: u64) | Text(units: seq<u16>) | NullText

  /** What is asked of a reader; a null string is asked for like any other. */
  datatype Want = Want32 | Want64 | WantText

  /** The count a string is written with; it keeps 32 bits. */
  function CountOf(units: seq<u16>): u32 {
    (|units| % TWO_32 + 1) % TWO_32
  }

  // ----- Specification

  function PutUnits(units: seq<u16>, k: seq<byte>): seq<byte> {
    if units == [] then k else Decode.PutU16(units[0], PutUnits(units[1..], k))
  }

  function PutItem(item: Item, k: seq<byte>): seq<byte> {
    match item
    case Number32(v) => Decode.PutU32(v, k)
    case Number64(w) => Decode.PutU64(w, k)
    case Text(units) => Decode.PutU32(CountOf(units), PutUnits(units, [0, 0] + k))
    case NullText => Decode.PutU32(0, k)
  }

  function PutItems(items: seq<Item>, k: seq<byte>): seq<byte> {
    if items == [] then k else PutItem(items[0], PutItems(items[1..], k))
  }

  /** All bytes of a string are taken together; the last unit is dropped unseen. */
  function ReadText(s: seq<byte>): Parsed<seq<u16>> {
    var (count, s1) :- Decode.U32(s);
    if count == 0 then Done([], s1)
    else
      var (bytes, s2) :- Decode.Take(s1, 2 * count);
      Done(AllUnits(bytes)[..count - 1], s2)
  }

  function AllUnits(bytes: seq<byte>): (units: seq<u16>)
    ensures |units| == |bytes| / 2
  {
    if |bytes| < 2 then [] else PowersOf256(); [FromLE(bytes[..2])] + AllUnits(bytes[2..])
  }

  function ReadItem(s: seq<byte>, want: Want): Parsed<Item> {
    match want
    case Want32 => (var (v, k) :- Decode.U32(s); Done(Number32(v), k))
    case Want64 => (var (w, k) :- Decode.U64(s); Done(Number64(w), k))
    case WantText => (var (units, k) :- ReadText(s); Done(Text(units), k))
  }

  function ReadItems(s: seq<byte>, wants: seq<Want>): Parsed<seq<Item>> {
    if wants == [] then Done([], s)
    else
      var (item, s1) :- ReadItem(s, wants[0]);
      var (more, s2) :- ReadItems(s1, wants[1..]);
      Done([item] + more, s2)
  }

  // ----- The objects of the source

  class PayloadWriter {
    var buf: seq<byte>

    constructor ()
      ensures buf == []
    {
      buf := [];
    }

    method U32(v: u32)
      modifies this
      ensures buf == old(buf) + PutItem(Number32(v), [])
    {
      buf := buf + LE(v, 4);
      assert Decode.PutU32(v, []) == LE(v, 4);
    }

    method U64(v: u64)
      modifies this
      ensures buf == old(buf) + PutItem(Number64(v), [])
    {
      buf := buf + LE(v, 8);
      assert Decode.PutU64(v, []) == LE(v, 8);
    }

    /** The empty string is a lone terminator: six bytes, not the four of the null string. */
    method String(units: seq<u16>)
      modifies this
      ensures buf == old(buf) + PutItem(Text(units), [])
    {
      hide LE;
      U32(CountOf(units));
      ghost var counted := buf;
      for k := 0 to |units|
        invariant buf + PutUnits(units[k..], []) == counted + PutUnits(units, [])
      {
        assert Decode.PutU16(units[k], PutUnits(units[k..][1..], [])) == LE(units[k], 2) + PutUnits(units[k + 1..], []) by {
          assert units[k..][1..] == units[k + 1..];
        }
        buf := buf + LE(units[k], 2);
      }
      assert units[|units|..] == [];
      assert buf == counted + PutUnits(units, []);
      buf := buf + [0, 0];
      TextPieces(units);
      assert old(buf) + PutItem(Text(units), [])
          == old(buf) + PutItem(Number32(CountOf(units)), []) + PutUnits(units, []) + [0, 0];
    }

    method NullString()
      modifies this
      ensures buf == old(buf) + PutItem(NullText, [])
    {
      U32(0);
    }
  }

  class PayloadReader {
    const buf: seq<byte>
    var pos: nat

    ghost predicate Valid()
      reads this
    {
      pos <= |buf|
    }

    ghost function Rest(): seq<byte>
      requires Valid()
      reads this
    {
      buf[pos..]
    }

    constructor (bytes: seq<byte>)
      ensures Valid() && buf == bytes && Rest() == bytes
    {
      buf, pos := bytes, 0;
    }

    method Take(n: nat) returns (r: Result<seq<byte>>)
      requires Valid()
      modifies this
      ensures Valid() && Matches(Decode.Take(old(Rest()), n), r, Rest())
    {
      if |buf| - pos < n {
        return Err(Truncated(n, |buf| - pos));
      }
      var slice := buf[pos..pos + n];
      assert slice == Rest()[..n] && buf[pos + n..] == Rest()[n..];
      pos := pos + n;
      return Ok(slice);
    }

    method U32() returns (r: Result<u32>)
      requires Valid()
      modifies this
      ensures Valid() && Matches(Decode.U32(old(Rest())), r, Rest())
    {
      PowersOf256();
      var b :- Take(4);
      return Ok(FromLE(b));
    }

    method U64() returns (r: Result<u64>)
      requires Valid()
      modifies this
      ensures Valid() && Matches(Decode.U64(old(Rest())), r, Rest())
    {
      PowersOf256();
      var b :- Take(8);
      return Ok(FromLE(b));
    }

    method String() returns (r: Result<seq<u16>>)
      requires Valid()
      modifies this
      ensures Valid() && Matches(ReadText(old(Rest())), r, Rest())
    {
      hide AllUnits, Decode.U32, Decode.Take;
      var count :- U32();
      if count == 0 {
        return Ok([]);
      }
      var wanted := (count as int) * 2;
      var bytes :- Take(wanted);
      var units := Collect(bytes, count - 1);
      return Ok(units);
    }

    /** The first `n` pairs of bytes as code units. */
    static method Collect(bytes: seq<byte>, n: nat) returns (units: seq<u16>)
      requires 2 * n <= |bytes|
      ensures units == AllUnits(bytes)[..n]
    {
      hide FromLE;
      units := [];
      for k := 0 to n
        invariant |units| == k
        invariant units + AllUnits(bytes[2 * k..]) == AllUnits(bytes)
      {
        var rest := bytes[2 * k..];
        assert rest[2..] == bytes[2 * (k + 1)..];
        PowersOf256();
        units := units + [FromLE(rest[..2])];
      }
      assert AllUnits(bytes)[..n] == units;
    }
  }

  // ----- Properties

  /** The null string is a bare count; the empty string still has its terminator. */
  lemma NullIsNotEmpty()
    ensures PutItem(NullText, []) == [0, 0, 0, 0]
    ensures PutItem(Text([]), []) == [1, 0, 0, 0, 0, 0]
  {
    assert LE(0, 4) == [0, 0, 0, 0] && LE(1, 4) == [1, 0, 0, 0];
    assert [0, 0] + [] == [0, 0];
  }

  lemma {:induction false} PutUnitsAppend(units: seq<u16>, k: seq<byte>)
    ensures PutUnits(units, k) == PutUnits(units, []) + k
    ensures |PutUnits(units, [])| == 2 * |units|
  {
    if units == [] {
    } else {
      PutUnitsAppend(units[1..], k);
      PutUnitsAppend(units[1..], []);
    }
  }

  /** What follows an item does not change how it is written. */
  lemma PutItemAppend(item: Item, k: seq<byte>)
    ensures PutItem(item, k) == PutItem(item, []) + k
  {
    if item.Text? {
      PutUnitsAppend(item.units, [0, 0] + k);
      PutUnitsAppend(item.units, [0, 0] + []);
    }
  }

  lemma TextPieces(units: seq<u16>)
    ensures PutItem(Text(units), []) == PutItem(Number32(CountOf(units)), []) + PutUnits(units, []) + [0, 0]
  {
    assert [0, 0] + [] == [0, 0];
    PutUnitsAppend(units, [0, 0]);
    PutItemAppend(Number32(CountOf(units)), PutUnits(units, [0, 0]));
  }

  lemma {:induction false} AllUnitsUndoPut(units: seq<u16>, k: seq<byte>)
    ensures |AllUnits(PutUnits(units, k))| >= |units| && AllUnits(PutUnits(units, k))[..|units|] == units
  {
    if units == [] {
    } else {
      AllUnitsUndoPut(units[1..], k);
      var rest := PutUnits(units[1..], k);
      var s := PutUnits(units, k);
      assert s == LE(units[0], 2) + rest;
      assert s[..2] == LE(units[0], 2) && s[2..] == rest;
      PowersOf256();
      FromLEUndoesLE(units[0], 2);
      assert AllUnits(s) == [units[0]] + AllUnits(rest);
    }
  }

  predicate Fits(units: seq<u16>) {
    |units| + 1 < TWO_32
  }

  /** A string's bytes stand on their own, terminator included, in front of what follows. */
  lemma UnitsThenRest(units: seq<u16>, k: seq<byte>)
    ensures PutUnits(units, [0, 0] + k) == PutUnits(units, [0, 0]) + k
    ensures |PutUnits(units, [0, 0])| == 2 * (|units| + 1)
  {
    hide PutUnits;
    PutUnitsAppend(units, [0, 0] + k);
    PutUnitsAppend(units, [0, 0]);
    assert PutUnits(units, []) + [0, 0] + k == PutUnits(units, []) + ([0, 0] + k);
  }

  lemma FittingTextUndoesPut(units: seq<u16>, k: seq<byte>)
    requires Fits(units)
    ensures ReadText(PutItem(Text(units), k)) == Done(units, k)
  {
    hide PutUnits, AllUnits, Decode.U32, Decode.PutU32, Decode.Take;
    var bytes := PutUnits(units, [0, 0]);
    var count: u32 := |units| + 1;
    assert CountOf(units) == count;
    Decode.U32UndoesPut(count, bytes + k);
    UnitsThenRest(units, k);
    Decode.TakeUndoesAppend(bytes, k);
    AllUnitsUndoPut(units, [0, 0]);
  }

  /** A string comes back exactly if its count fits: embedded terminators are no obstacle. */
  lemma TextUndoesPut(units: seq<u16>, k: seq<byte>)
    ensures ReadText(PutItem(Text(units), k)) == Done(units, k) <==> Fits(units)
  {
    if Fits(units) {
      FittingTextUndoesPut(units, k);
    } else {
      Decode.U32UndoesPut(CountOf(units), PutUnits(units, [0, 0] + k));
    }
  }

  function WantOf(item: Item): Want {
    match item
    case Number32(_) => Want32
    case Number64(_) => Want64
    case Text(_) => WantText
    case NullText => WantText
  }

  /** What a reader makes of an item: a null string reads as an empty one. */
  function Seen(item: Item): Item {
    if item.NullText? then Text([]) else item
  }

  predicate ItemFits(item: Item) {
    item.Text? ==> Fits(item.units)
  }

  lemma ItemUndoesPut(item: Item, k: seq<byte>)
    requires ItemFits(item)
    ensures ReadItem(PutItem(item, k), WantOf(item)) == Done(Seen(item), k)
  {
    match item
    case Number32(v) => Decode.U32UndoesPut(v, k);
    case Number64(w) => Decode.U64UndoesPut(w, k);
    case Text(units) => FittingTextUndoesPut(units, k);
    case NullText => Decode.U32UndoesPut(0, k);
  }

  function WantsOf(items: seq<Item>): seq<Want> {
    if items == [] then [] else [WantOf(items[0])] + WantsOf(items[1..])
  }

  function AllSeen(items: seq<Item>): seq<Item> {
    if items == [] then [] else [Seen(items[0])] + AllSeen(items[1..])
  }

  /** Any sequence of numbers and strings reads back, with what follows it left over. */
  lemma {:induction false} ItemsUndoPut(items: seq<Item>, k: seq<byte>)
    requires forall item <- items :: ItemFits(item)
    ensures ReadItems(PutItems(items, k), WantsOf(items)) == Done(AllSeen(items), k)
  {
    hide PutItem, ReadItem;
    if items == [] {
    } else {
      ItemUndoesPut(items[0], PutItems(items[1..], k));
      ItemsUndoPut(items[1..], k);
      assert WantsOf(items)[1..] == WantsOf(items[1..]);
    }
  }

  /** A writer's calls one after another give the bytes `PutItems` describes. */
  lemma {:induction false} CallsConcatenate(items: seq<Item>, last: Item)
    ensures PutItems(items, []) + PutItem(last, []) == PutItems(items + [last], [])
  {
    hide PutItem;
    if items == [] {
      assert [last][1..] == [] && items + [last] == [last];
      PutItemAppend(last, []);
    } else {
      CallsConcatenate(items[1..], last);
      assert (items + [last])[1..] == items[1..] + [last];
      PutItemAppend(items[0], PutItems(items[1..], []));
      PutItemAppend(items[0], PutItems(items[1..] + [last], []));
    }
  }
}
