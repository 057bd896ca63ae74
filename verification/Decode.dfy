/**
 Decoding functions for the scalars of a nettrace block, and the writers they undo.

 Varints are unsigned LEB128 (section 7.6 of the DWARF 5 standard). Strings are sequences of UTF-16 code
 units ended by a zero unit.
 */
module Decode {
  import opened Wire

  function Take(s: seq<byte>, n: nat): (p: Parsed<seq<byte>>)
    ensures p.Done? ==> |p.value| == n && p.value + p.rest == s
    ensures p.Failed? ==> |s| < n && p == Failed(Truncated(n, |s|))
  {
    if |s| < n then Failed(Truncated(n, |s|)) else Done(s[..n], s[n..])
  }

  function UInt(s: seq<byte>, n: nat): (p: Parsed<nat>)
    ensures p.Done? ==> p.value < Pow256(n) && |p.rest| + n == |s|
  {
    var (b, k) :- Take(s, n);
    Done(FromLE(b), k)
  }

  function PutUInt(v: nat, n: nat, k: seq<byte>): (s: seq<byte>)
    ensures |s| == n + |k|
  {
    LE(v, n) + k
  }

  lemma TakeUndoesAppend(b: seq<byte>, k: seq<byte>)
    ensures Take(b + k, |b|) == Done(b, k)
  {
    assert (b + k)[..|b|] == b;
    assert (b + k)[|b|..] == k;
  }

  lemma UIntUndoesPut(v: nat, n: nat, k: seq<byte>)
    requires v < Pow256(n)
    ensures UInt(PutUInt(v, n, k), n) == Done(v, k)
  {
    TakeUndoesAppend(LE(v, n), k);
    FromLEUndoesLE(v, n);
  }

  function U8(s: seq<byte>): (p: Parsed<byte>)
    ensures p.Done? ==> |p.rest| + 1 == |s|
  {
    var (b, k) :- Take(s, 1);
    Done(b[0], k)
  }

  function U16(s: seq<byte>): (p: Parsed<u16>)
    ensures p.Done? ==> |p.rest| + 2 == |s|
  {
    PowersOf256();
    var (v, k) :- UInt(s, 2);
    Done(v, k)
  }

  function U32(s: seq<byte>): (p: Parsed<u32>)
    ensures p.Done? ==> |p.rest| + 4 == |s|
  {
    PowersOf256();
    var (v, k) :- UInt(s, 4);
    Done(v, k)
  }

  function U64(s: seq<byte>): (p: Parsed<u64>)
    ensures p.Done? ==> |p.rest| + 8 == |s|
  {
    PowersOf256();
    var (v, k) :- UInt(s, 8);
    Done(v, k)
  }

  function I16(s: seq<byte>): (p: Parsed<i16>)
    ensures p.Done? ==> |p.rest| + 2 == |s|
  {
    var (v, k) :- U16(s);
    Done(Signed(v, 0x1_0000), k)
  }

  function I32(s: seq<byte>): (p: Parsed<i32>)
    ensures p.Done? ==> |p.rest| + 4 == |s|
  {
    var (v, k) :- U32(s);
    Done(Signed(v, TWO_32), k)
  }

  function I64(s: seq<byte>): (p: Parsed<i64>)
    ensures p.Done? ==> |p.rest| + 8 == |s|
  {
    var (v, k) :- U64(s);
    Done(Signed(v, TWO_64), k)
  }

  function PutU8(b: byte, k: seq<byte>): seq<byte> { [b] + k }
  function PutU16(v: u16, k: seq<byte>): seq<byte> { PutUInt(v, 2, k) }
  function PutU32(v: u32, k: seq<byte>): seq<byte> { PutUInt(v, 4, k) }
  function PutU64(v: u64, k: seq<byte>): seq<byte> { PutUInt(v, 8, k) }
  function PutI16(v: i16, k: seq<byte>): seq<byte> { PutU16(Unsigned(v, 0x1_0000), k) }
  function PutI32(v: i32, k: seq<byte>): seq<byte> { PutU32(Unsigned(v, TWO_32), k) }
  function PutI64(v: i64, k: seq<byte>): seq<byte> { PutU64(Unsigned(v, TWO_64), k) }

  lemma U8UndoesPut(b: byte, k: seq<byte>)
    ensures U8(PutU8(b, k)) == Done(b, k)
  {
    TakeUndoesAppend([b], k);
  }

  lemma U16UndoesPut(v: u16, k: seq<byte>)
    ensures U16(PutU16(v, k)) == Done(v, k)
  {
    PowersOf256();
    UIntUndoesPut(v, 2, k);
  }

  lemma U32UndoesPut(v: u32, k: seq<byte>)
    ensures U32(PutU32(v, k)) == Done(v, k)
  {
    PowersOf256();
    UIntUndoesPut(v, 4, k);
  }

  lemma U64UndoesPut(v: u64, k: seq<byte>)
    ensures U64(PutU64(v, k)) == Done(v, k)
  {
    PowersOf256();
    UIntUndoesPut(v, 8, k);
  }

  lemma I16UndoesPut(v: i16, k: seq<byte>)
    ensures I16(PutI16(v, k)) == Done(v, k)
  {
    U16UndoesPut(Unsigned(v, 0x1_0000), k);
  }

  lemma I32UndoesPut(v: i32, k: seq<byte>)
    ensures I32(PutI32(v, k)) == Done(v, k)
  {
    U32UndoesPut(Unsigned(v, TWO_32), k);
  }

  lemma I64UndoesPut(v: i64, k: seq<byte>)
    ensures I64(PutI64(v, k)) == Done(v, k)
  {
    U64UndoesPut(Unsigned(v, TWO_64), k);
  }

  // ----- Varints

  function Pow128(n: nat): (p: nat)
    ensures p > 0
  {
    if n == 0 then 1 else 128 * Pow128(n - 1)
  }

  /** How many bytes at the front have their continuation bit set. */
  function Continuations(s: seq<byte>): (n: nat)
    ensures n <= |s|
    ensures forall i :: 0 <= i < n ==> s[i] >= 0x80
    ensures n < |s| ==> s[n] < 0x80
  {
    if s == [] || s[0] < 0x80 then 0 else 1 + Continuations(s[1..])
  }

  /** The seven payload bits of `b`, shifted past `n` lower groups. */
  function Group(b: byte, n: nat): nat {
    if n == 0 then b % 0x80 else 0x80 * Group(b, n - 1)
  }

  /** The 7-bit groups of `b`, least significant group first, as one number. */
  function GroupSum(b: seq<byte>): nat {
    if b == [] then 0 else GroupSum(b[..|b| - 1]) + Group(b[|b| - 1], |b| - 1)
  }

  /** An encoding of at most `maxBytes` bytes, its groups summed into 64 bits. */
  function VarUInt(s: seq<byte>, maxBytes: nat): (p: Parsed<u64>)
    ensures p.Done? ==> |p.rest| < |s| && p.rest == s[|s| - |p.rest|..]
  {
    var n := Continuations(s);
    if n >= maxBytes then Failed(MalformedVarint)
    else if n == |s| then Failed(Truncated(1, 0))
    else Done(GroupSum(s[..n + 1]) % TWO_64, s[n + 1..])
  }

  function VarUInt32(s: seq<byte>): (p: Parsed<u32>)
    ensures p.Done? ==> |p.rest| < |s|
  {
    var (v, k) :- VarUInt(s, 5);
    Done(v % TWO_32, k)
  }

  function VarUInt64(s: seq<byte>): (p: Parsed<u64>)
    ensures p.Done? ==> |p.rest| < |s|
  {
    VarUInt(s, 10)
  }

  /** The canonical encoding: no group beyond the last non-zero one. */
  function PutVar(v: nat, k: seq<byte>): (s: seq<byte>)
    decreases v
  {
    if v < 0x80 then [v] + k else [0x80 + v % 0x80] + PutVar(v / 0x80, k)
  }

  lemma GroupSumPush(before: seq<byte>, b: byte)
    ensures GroupSum(before + [b]) == GroupSum(before) + Group(b, |before|)
  {
    assert (before + [b])[..|before|] == before;
  }

  /** The lowest group can be split off first as well as the highest. */
  lemma {:induction false} GroupSumLowFirst(b: byte, bs: seq<byte>)
    ensures GroupSum([b] + bs) == b % 0x80 + 0x80 * GroupSum(bs)
  {
    var all := [b] + bs;
    if bs == [] {
      assert all[..0] == [];
    } else {
      var n := |bs|;
      assert all[..n] == [b] + bs[..n - 1];
      GroupSumLowFirst(b, bs[..n - 1]);
    }
  }

  /** `s` starts with a varint of `m + 1` bytes whose groups sum to `v`, and continues with `k`. */
  ghost predicate StartsWithVar(s: seq<byte>, v: nat, k: seq<byte>, m: nat) {
    m < |s| && Continuations(s) == m && GroupSum(s[..m + 1]) == v && s[m + 1..] == k
  }

  lemma StartsWithVarCons(g: byte, t: seq<byte>, q: nat, k: seq<byte>, m: nat)
    requires g < 0x80 && StartsWithVar(t, q, k, m)
    ensures StartsWithVar([0x80 + g] + t, g + 0x80 * q, k, m + 1)
  {
    var s := [0x80 + g] + t;
    assert s[1..] == t;
    assert s[..m + 2] == [s[0]] + t[..m + 1];
    GroupSumLowFirst(s[0], t[..m + 1]);
    assert s[m + 2..] == t[m + 1..];
  }

  /** A canonical encoding of a value below `128^n` has at most `n` bytes. */
  lemma {:induction false} PutVarShape(v: nat, n: nat, k: seq<byte>) returns (m: nat)
    requires n > 0 && v < Pow128(n)
    ensures m < n && StartsWithVar(PutVar(v, k), v, k, m)
    decreases n
  {
    if v < 0x80 {
      m := 0;
      var s := [v] + k;
      assert s[..1] == [v] + [];
      GroupSumLowFirst(v, []);
      assert s[1..] == k;
    } else {
      assert n > 1 by { assert Pow128(1) == 0x80 * Pow128(0); }
      m := PutVarShape(v / 0x80, n - 1, k);
      StartsWithVarCons(v % 0x80, PutVar(v / 0x80, k), v / 0x80, k, m);
      m := m + 1;
    }
  }

  /** And one of a value from `128^n` on has more. */
  lemma {:induction false} PutVarIsLong(v: nat, n: nat, k: seq<byte>)
    requires v >= Pow128(n)
    ensures Continuations(PutVar(v, k)) >= n
    decreases n
  {
    if n == 0 {
    } else {
      assert v / 0x80 >= Pow128(n - 1);
      PutVarIsLong(v / 0x80, n - 1, k);
      assert PutVar(v, k)[1..] == PutVar(v / 0x80, k);
    }
  }

  /** Of the values `n` bytes can hold the low 64 bits are read; any larger one is refused. */
  lemma VarUIntUndoesPut(v: nat, n: nat, k: seq<byte>)
    requires n > 0
    ensures VarUInt(PutVar(v, k), n) == if v < Pow128(n) then Done(v % TWO_64, k) else Failed(MalformedVarint)
  {
    hide Pow128, PutVar;
    if v < Pow128(n) {
      var m := PutVarShape(v, n, k);
      VarUIntOfShape(PutVar(v, k), v, k, m, n);
    } else {
      PutVarIsLong(v, n, k);
    }
  }

  lemma VarUIntOfShape(s: seq<byte>, v: nat, k: seq<byte>, m: nat, n: nat)
    requires m < n && StartsWithVar(s, v, k, m)
    ensures VarUInt(s, n) == Done(v % TWO_64, k)
  {
  }

  /** A loop that has met `n` continuation bytes knows how the decoding ends. */
  lemma VarUIntStops(s: seq<byte>, n: nat, maxBytes: nat)
    requires n <= Continuations(s)
    ensures n >= maxBytes ==> VarUInt(s, maxBytes) == Failed(MalformedVarint)
    ensures n == |s| < maxBytes ==> VarUInt(s, maxBytes) == Failed(Truncated(1, 0))
    ensures n < |s| && n < maxBytes && s[n] < 0x80 ==>
              VarUInt(s, maxBytes) == Done(GroupSum(s[..n + 1]) % TWO_64, s[n + 1..])
  {
  }

  lemma NoGroups()
    ensures GroupSum([]) == 0
  {
  }

  lemma PowersOf128()
    ensures Pow128(5) == 0x8_0000_0000
    ensures Pow128(10) == 0x40_0000_0000_0000_0000
  {
    assert Pow128(5) == 128 * 128 * Pow128(3);
    assert Pow128(3) == 128 * 128 * Pow128(1);
    assert Pow128(7) == 128 * 128 * Pow128(5);
    assert Pow128(9) == 128 * 128 * Pow128(7);
  }

  /** Five bytes carry 35 bits, of which 32 are kept. */
  lemma VarUInt32Exactly(v: nat, k: seq<byte>)
    ensures VarUInt32(PutVar(v, k)) == if v < 0x8_0000_0000 then Done(v % 0x1_0000_0000, k) else Failed(MalformedVarint)
  {
    hide VarUInt, PutVar, Pow128;
    PowersOf128();
    VarUIntUndoesPut(v, 5, k);
  }

  /** Ten bytes carry 70 bits, of which 64 are kept. */
  lemma VarUInt64Exactly(v: nat, k: seq<byte>)
    ensures VarUInt64(PutVar(v, k))
         == if v < 0x40_0000_0000_0000_0000 then Done(v % 0x1_0000_0000_0000_0000, k) else Failed(MalformedVarint)
  {
    hide VarUInt, PutVar, Pow128;
    PowersOf128();
    VarUIntUndoesPut(v, 10, k);
  }

  lemma VarUInt32UndoesPut(v: u32, k: seq<byte>)
    ensures VarUInt32(PutVar(v, k)) == Done(v, k)
  {
    hide VarUInt32, PutVar;
    VarUInt32Exactly(v, k);
  }

  lemma VarUInt64UndoesPut(v: u64, k: seq<byte>)
    ensures VarUInt64(PutVar(v, k)) == Done(v, k)
  {
    hide VarUInt64, PutVar;
    VarUInt64Exactly(v, k);
  }

  // ----- Runs of 16-bit integers

  function I16s(s: seq<byte>, n: nat): (p: Parsed<seq<i16>>)
    ensures p.Done? ==> |p.value| == n && |p.rest| + 2 * n == |s|
  {
    if n == 0 then Done([], s)
    else
      var (part, k) :- I16(s);
      After([part], I16s(k, n - 1))
  }

  function PutI16s(parts: seq<i16>, k: seq<byte>): seq<byte> {
    if parts == [] then k else PutI16(parts[0], PutI16s(parts[1..], k))
  }

  lemma {:induction false} I16sEnough(s: seq<byte>, n: nat)
    requires 2 * n <= |s|
    ensures I16s(s, n).Done?
  {
    hide After;
    if n == 0 {
    } else {
      I16sEnough(I16(s).rest, n - 1);
      AfterDone([I16(s).value], I16s(I16(s).rest, n - 1));
    }
  }

  lemma {:induction false} I16sUndoPut(parts: seq<i16>, k: seq<byte>)
    ensures I16s(PutI16s(parts, k), |parts|) == Done(parts, k)
  {
    hide I16, PutI16;
    if parts == [] {
    } else {
      I16UndoesPut(parts[0], PutI16s(parts[1..], k));
      I16sUndoPut(parts[1..], k);
      assert [parts[0]] + parts[1..] == parts;
    }
  }

  // ----- UTF-16 strings

  function Utf16Nul(s: seq<byte>): (p: Parsed<seq<u16>>)
    ensures p.Done? ==> |p.rest| + 2 * |p.value| + 2 == |s|
    ensures p.Done? ==> 0 !in p.value
    decreases |s|
  {
    var (unit, k) :- U16(s);
    if unit == 0 then Done([], k)
    else
      var (units, k2) :- Utf16Nul(k);
      Done([unit] + units, k2)
  }

  function PutUtf16(units: seq<u16>, k: seq<byte>): (s: seq<byte>)
    ensures |s| == 2 * |units| + 2 + |k|
  {
    if units == [] then PutU16(0, k) else PutU16(units[0], PutUtf16(units[1..], k))
  }

  lemma {:induction false} Utf16NulUndoesPut(units: seq<u16>, k: seq<byte>)
    requires 0 !in units
    ensures Utf16Nul(PutUtf16(units, k)) == Done(units, k)
  {
    if units == [] {
      U16UndoesPut(0, k);
    } else {
      U16UndoesPut(units[0], PutUtf16(units[1..], k));
      Utf16NulUndoesPut(units[1..], k);
      assert [units[0]] + units[1..] == units;
    }
  }
}
