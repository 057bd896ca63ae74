/**
 Fixed-width integers and the two result types every decoder below is written with.

 A decoder is a function from the unread bytes to a `Parsed` value: the decoded value together with the
 bytes it left unread. A writer takes the bytes that follow it as its last argument, so "decode undoes
 write" is always the one equation `Decode(Put(x, k)) == Done(x, k)`.
 */
module Wire {

  type byte = b: int | 0 <= b < 0x100
  type u16 = x: int | 0 <= x < 0x1_0000
  type u32 = x: int | 0 <= x < 0x1_0000_0000
  type u64 = x: int | 0 <= x < 0x1_0000_0000_0000_0000
  type i16 = x: int | -0x8000 <= x < 0x8000
  type i32 = x: int | -0x8000_0000 <= x < 0x8000_0000
  type i64 = x: int | -0x8000_0000_0000_0000 <= x < 0x8000_0000_0000_0000

  const TWO_32: int := 0x1_0000_0000
  const TWO_64: int := 0x1_0000_0000_0000_0000

  datatype Option<+T> = None | Some(value: T)

  /** Which part of the format a stream broke. */
  datatype Structure =
    | StreamMagic | SerializerHeaderLength | SerializerHeader
    | ObjectTag | SerializationTypeTag | SerializationTypesTypeTag | TypeNameLength | EndOfSerializationType
    | BlockSize | EndOfBlock | BlockHeaderSize | StackSize
    | NestingDepth | V1FieldCount | V2FieldCount | V2FieldSize | MetadataTagLength
    | PayloadFieldType | ScalarFieldType

  datatype ParseError =
    | Io
    | Truncated(wanted: nat, remaining: nat)
    | MalformedVarint
    | Unexpected(what: Structure)

  /** What a method that may fail hands back. */
  datatype Result<+T> = Ok(value: T) | Err(error: ParseError) {
    predicate IsFailure() { Err? }

    function PropagateFailure<U>(): Result<U>
      requires Err?
    {
      Err(error)
    }

    function Extract(): T
      requires Ok?
    {
      value
    }
  }

  /** What a decoding function hands back: the value and the bytes still unread. */
  datatype Parsed<+T> = Done(value: T, rest: seq<byte>) | Failed(error: ParseError) {
    predicate IsFailure() { Failed? }

    function PropagateFailure<U>(): Parsed<U>
      requires Failed?
    {
      Failed(error)
    }

    function Extract(): (T, seq<byte>)
      requires Done?
    {
      (value, rest)
    }
  }

  /** A method returned what the decoding function says, and left the same bytes unread. */
  ghost predicate Matches<T>(p: Parsed<T>, r: Result<T>, rest: seq<byte>) {
    match p
    case Done(v, s) => r == Ok(v) && rest == s
    case Failed(e) => r == Err(e)
  }

  /** The items a loop has pushed so far, then those a list decoder still finds. */
  function After<T>(items: seq<T>, p: Parsed<seq<T>>): (q: Parsed<seq<T>>)
    ensures items == [] || p.Failed? ==> q == p
  {
    match p
    case Done(more, s) => assert items == [] ==> items + more == more; Done(items + more, s)
    case Failed(e) => Failed(e)
  }

  lemma AfterTwice<T>(a: seq<T>, b: seq<T>, p: Parsed<seq<T>>)
    ensures After(a, After(b, p)) == After(a + b, p)
  {
    if p.Done? {
      assert a + (b + p.value) == a + b + p.value;
    }
  }

  lemma AfterDone<T>(items: seq<T>, p: Parsed<seq<T>>)
    ensures After(items, p).Done? == p.Done?
  {
  }

  lemma AfterNothing<T>(items: seq<T>, s: seq<byte>)
    ensures After(items, Done([], s)) == Done(items, s)
  {
    assert items + [] == items;
  }

  lemma AfterPush<T>(items: seq<T>, x: T, more: seq<T>, s: seq<byte>)
    ensures After(items, Done([x] + more, s)) == After(items + [x], Done(more, s))
    ensures After(items, Done([], s)) == Done(items, s)
  {
    assert items + ([x] + more) == items + [x] + more;
    assert items + [] == items;
  }

  // ----- Little-endian integers

  function Pow256(n: nat): (p: nat)
    ensures p > 0
  {
    if n == 0 then 1 else 256 * Pow256(n - 1)
  }

  /** The low `n` bytes of `v`, least significant first. */
  function LE(v: nat, n: nat): (s: seq<byte>)
    ensures |s| == n
  {
    if n == 0 then [] else [v % 256] + LE(v / 256, n - 1)
  }

  function FromLE(s: seq<byte>): (v: nat)
    ensures v < Pow256(|s|)
  {
    if s == [] then 0 else s[0] + 256 * FromLE(s[1..])
  }

  lemma {:induction false} FromLEUndoesLE(v: nat, n: nat)
    requires v < Pow256(n)
    ensures FromLE(LE(v, n)) == v
  {
    if n == 0 {
    } else {
      FromLEUndoesLE(v / 256, n - 1);
      assert LE(v, n)[1..] == LE(v / 256, n - 1);
    }
  }

  lemma {:induction false} LEUndoesFromLE(s: seq<byte>)
    ensures LE(FromLE(s), |s|) == s
  {
    if s == [] {
    } else {
      LEUndoesFromLE(s[1..]);
      assert FromLE(s) % 256 == s[0] && FromLE(s) / 256 == FromLE(s[1..]);
    }
  }

  lemma PowersOf256()
    ensures Pow256(1) == 0x100 && Pow256(2) == 0x1_0000
    ensures Pow256(4) == TWO_32 && Pow256(8) == TWO_64
  {
    assert Pow256(4) == 256 * 256 * Pow256(2);
    assert Pow256(6) == 256 * 256 * Pow256(4);
    assert Pow256(8) == 256 * 256 * Pow256(6);
  }

  /** Two's-complement reading of an unsigned value below `m` (`as i32` and friends). */
  function Signed(v: nat, m: nat): (i: int)
    requires m % 2 == 0 && v < m
    ensures -(m / 2) <= i < m / 2 && (i == v || i == v - m)
  {
    if v < m / 2 then v else v - m
  }

  function Unsigned(i: int, m: nat): (v: nat)
    requires m % 2 == 0 && -(m / 2) <= i < m / 2
    ensures v < m && Signed(v, m) == i
  {
    if i < 0 then i + m else i
  }

  /** Keeping 64 bits after every addition is keeping 64 bits of the sum. */
  lemma Keep64(a: nat, b: nat)
    ensures (a % TWO_64 + b) % TWO_64 == (a + b) % TWO_64
  {
  }

  /** Comparing quotients comes down to the sign of a factor. */
  lemma SignOfFactor(x: real, y: real)
    requires y > 0.0 && x * y >= 0.0
    ensures x >= 0.0
  {
  }

  // ----- ASCII constants

  function Ascii(s: string): (b: seq<byte>)
    ensures |b| == |s|
    ensures forall i | 0 <= i < |s| :: s[i] as int < 0x80 ==> b[i] == s[i] as int
  {
    seq(|s|, i requires 0 <= i < |s| => s[i] as int % 0x80)
  }
}
