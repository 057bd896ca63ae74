/**
 The method table of src/profile/methods.rs: address ranges collected in any order, sorted once, then searched
 for the one range an address can be in.
 */
module Methods {
  import opened Wire
  import Decode
  import opened Readers
  import opened Names

  /** Where a compiled method lies in memory and what it is called. */
  datatype Method = Method(start: u64, size: u32, namespace: Name, name: Name, signature: Name)

  const DOT: u16 := 46

  function QualifiedName(m: Method): Name {
    if m.namespace == [] then m.name else m.namespace + [DOT] + m.name
  }

  /** The end of the range wraps at 64 bits, as an unchecked addition does. */
  predicate Contains(m: Method, address: u64) {
    m.start <= address < (m.start + m.size) % TWO_64
  }

  // ----- Decoding

  /** The six fixed fields, of which the start address and the size are kept. */
  function DecodeRange(payload: seq<byte>): Parsed<(u64, u32)> {
    var (_, s1) :- Decode.Take(payload, 8);
    var (_, s2) :- Decode.Take(s1, 8);
    var (start, s3) :- Decode.U64(s2);
    var (size, s4) :- Decode.U32(s3);
    var (_, s5) :- Decode.Take(s4, 4);
    var (_, s6) :- Decode.Take(s5, 4);
    Done((start, size), s6)
  }

  function DecodeMethod(payload: seq<byte>): Parsed<Method> {
    var (range, s1) :- DecodeRange(payload);
    var (namespace, s2) :- Decode.Utf16Nul(s1);
    var (name, s3) :- Decode.Utf16Nul(s2);
    var (signature, s4) :- Decode.Utf16Nul(s3);
    Done(Method(range.0, range.1, namespace, name, signature), s4)
  }

  method ReadRange(r: Reader) returns (result: Result<(u64, u32)>)
    requires r.Valid()
    modifies r
    ensures r.Valid() && Matches(DecodeRange(old(r.Rest())), result, r.Rest())
  {
    hide Decode.Take, Decode.U64, Decode.U32;
    var _ :- r.Skip(8);
    var _ :- r.Skip(8);
    var start :- r.U64();
    var size :- r.U32();
    var _ :- r.Skip(4);
    var _ :- r.Skip(4);
    return Ok((start, size));
  }

  method ReadMethod(r: Reader) returns (result: Result<Method>)
    requires r.Valid()
    modifies r
    ensures r.Valid() && Matches(DecodeMethod(old(r.Rest())), result, r.Rest())
  {
    hide DecodeRange, Decode.Utf16Nul;
    var range :- ReadRange(r);
    var namespace :- r.Utf16NulString();
    var name :- r.Utf16NulString();
    var signature :- r.Utf16NulString();
    return Ok(Method(range.0, range.1, namespace, name, signature));
  }

  /** A payload of any other shape is no method; it is not an error. */
  function MethodIn(payload: seq<byte>): Option<Method> {
    match DecodeMethod(payload)
    case Done(m, _) => Some(m)
    case Failed(_) => None
  }

  method FindMethod(payload: seq<byte>) returns (found: Option<Method>)
    ensures found == MethodIn(payload)
  {
    hide DecodeMethod;
    var r := new Reader(payload);
    var result := ReadMethod(r);
    found := if result.Ok? then Some(result.value) else None;
  }

  // ----- Against the format

  /** A method's record: id, module, start, size, token, flags, and three strings; `gaps` is what is not kept. */
  function PutMethod(m: Method, gaps: seq<seq<byte>>, k: seq<byte>): seq<byte>
    requires |gaps| == 4
  {
    gaps[0] + (gaps[1] + Decode.PutU64(m.start, Decode.PutU32(m.size, gaps[2] + (gaps[3] +
      Decode.PutUtf16(m.namespace, Decode.PutUtf16(m.name, Decode.PutUtf16(m.signature, k)))))))
  }

  lemma RangeUndoesPut(start: u64, size: u32, gaps: seq<seq<byte>>, k: seq<byte>)
    requires |gaps| == 4 && |gaps[0]| == 8 && |gaps[1]| == 8 && |gaps[2]| == 4 && |gaps[3]| == 4
    ensures DecodeRange(gaps[0] + (gaps[1] + Decode.PutU64(start, Decode.PutU32(size, gaps[2] + (gaps[3] + k)))))
         == Done((start, size), k)
  {
    hide Decode.Take, Decode.U64, Decode.U32, Decode.PutU64, Decode.PutU32;
    var s4 := gaps[2] + (gaps[3] + k);
    var s3 := Decode.PutU32(size, s4);
    var s2 := Decode.PutU64(start, s3);
    Decode.TakeUndoesAppend(gaps[0], gaps[1] + s2);
    Decode.TakeUndoesAppend(gaps[1], s2);
    Decode.U64UndoesPut(start, s3);
    Decode.U32UndoesPut(size, s4);
    Decode.TakeUndoesAppend(gaps[2], gaps[3] + k);
    Decode.TakeUndoesAppend(gaps[3], k);
  }

  /** A written record is found again field for field. */
  lemma MethodUndoesPut(m: Method, gaps: seq<seq<byte>>, k: seq<byte>)
    requires |gaps| == 4 && |gaps[0]| == 8 && |gaps[1]| == 8 && |gaps[2]| == 4 && |gaps[3]| == 4
    requires 0 !in m.namespace && 0 !in m.name && 0 !in m.signature
    ensures MethodIn(PutMethod(m, gaps, k)) == Some(m)
  {
    hide DecodeRange, Decode.Utf16Nul, Decode.PutUtf16, Decode.PutU64, Decode.PutU32;
    var s3 := Decode.PutUtf16(m.signature, k);
    var s2 := Decode.PutUtf16(m.name, s3);
    var s1 := Decode.PutUtf16(m.namespace, s2);
    RangeUndoesPut(m.start, m.size, gaps, s1);
    Decode.Utf16NulUndoesPut(m.namespace, s2);
    Decode.Utf16NulUndoesPut(m.name, s3);
    Decode.Utf16NulUndoesPut(m.signature, k);
  }

  /** The start belongs to a method and its end does not; a range that reaches 2^64 holds nothing. */
  lemma ContainsExactly(m: Method, address: u64)
    ensures Contains(m, address) <==> m.start + m.size < TWO_64 && m.start <= address < m.start + m.size
  {
  }

  /** What a method is called: its namespace in front of a dot and its name, or the name alone. */
  lemma NameComesLast(m: Method)
    ensures m.namespace == [] ==> QualifiedName(m) == m.name
    ensures m.namespace != [] ==>
              var n := |m.namespace|;
              && n < |QualifiedName(m)| && QualifiedName(m)[..n] == m.namespace
              && QualifiedName(m)[n] == 0x2E && QualifiedName(m)[n + 1..] == m.name
  {
  }

  // ----- Sorting by start address, stably

  predicate SortedByStart(ms: seq<Method>) {
    forall i, j | 0 <= i < j < |ms| :: ms[i].start <= ms[j].start
  }

  /** Behind everything that starts no later. */
  function InsertSorted(ms: seq<Method>, m: Method): seq<Method> {
    if ms == [] || m.start < ms[0].start then [m] + ms else [ms[0]] + InsertSorted(ms[1..], m)
  }

  function StableSort(ms: seq<Method>): seq<Method> {
    if ms == [] then [] else InsertSorted(StableSort(ms[..|ms| - 1]), ms[|ms| - 1])
  }

  lemma {:induction false} InsertSortedPermutes(ms: seq<Method>, m: Method)
    ensures multiset(InsertSorted(ms, m)) == multiset(ms) + multiset{m}
  {
    if ms == [] || m.start < ms[0].start {
    } else {
      InsertSortedPermutes(ms[1..], m);
      assert ms == [ms[0]] + ms[1..];
    }
  }

  lemma {:induction false} InsertSortedSorts(ms: seq<Method>, m: Method)
    requires SortedByStart(ms)
    ensures SortedByStart(InsertSorted(ms, m))
    ensures forall x <- InsertSorted(ms, m) :: x == m || x in ms
  {
    if ms == [] || m.start < ms[0].start {
    } else {
      InsertSortedSorts(ms[1..], m);
      var tail := InsertSorted(ms[1..], m);
      forall j | 0 <= j < |tail|
        ensures ms[0].start <= tail[j].start
      {
        assert tail[j] in tail;
      }
    }
  }

  lemma {:induction false} StableSortSorts(ms: seq<Method>)
    ensures SortedByStart(StableSort(ms)) && multiset(StableSort(ms)) == multiset(ms)
  {
    if ms == [] {
    } else {
      StableSortSorts(ms[..|ms| - 1]);
      InsertSortedSorts(StableSort(ms[..|ms| - 1]), ms[|ms| - 1]);
      InsertSortedPermutes(StableSort(ms[..|ms| - 1]), ms[|ms| - 1]);
      assert ms == ms[..|ms| - 1] + [ms[|ms| - 1]];
    }
  }

  /** Methods starting at one address, in order. */
  function StartingAt(ms: seq<Method>, start: u64): seq<Method> {
    if ms == [] then []
    else StartingAt(ms[..|ms| - 1], start) + (if ms[|ms| - 1].start == start then [ms[|ms| - 1]] else [])
  }

  lemma {:induction false} StartingAtAppend(a: seq<Method>, b: seq<Method>, start: u64)
    ensures StartingAt(a + b, start) == StartingAt(a, start) + StartingAt(b, start)
    decreases |b|
  {
    if b == [] {
      assert a + b == a;
    } else {
      assert (a + b)[..|a + b| - 1] == a + b[..|b| - 1];
      StartingAtAppend(a, b[..|b| - 1], start);
    }
  }

  lemma StartingAtOne(m: Method, start: u64)
    ensures StartingAt([m], start) == if m.start == start then [m] else []
  {
    assert [m][..0] == [];
  }

  lemma {:induction false} StartsLater(ms: seq<Method>, start: u64)
    requires forall i :: 0 <= i < |ms| ==> start < ms[i].start
    ensures StartingAt(ms, start) == []
    decreases |ms|
  {
    if ms == [] {
    } else {
      StartsLater(ms[..|ms| - 1], start);
    }
  }

  lemma {:induction false} InsertSortedIsStable(ms: seq<Method>, m: Method, start: u64)
    requires SortedByStart(ms)
    ensures StartingAt(InsertSorted(ms, m), start) == StartingAt(ms + [m], start)
  {
    hide StartingAt;
    StartingAtAppend(ms, [m], start);
    StartingAtOne(m, start);
    if ms == [] || m.start < ms[0].start {
      StartingAtAppend([m], ms, start);
      if start == m.start {
        StartsLater(ms, start);
      }
    } else {
      InsertSortedIsStable(ms[1..], m, start);
      StartingAtAppend(ms[1..], [m], start);
      StartingAtAppend([ms[0]], InsertSorted(ms[1..], m), start);
      StartingAtAppend([ms[0]], ms[1..], start);
      assert ms == [ms[0]] + ms[1..];
    }
  }

  /** Entries that share a start address keep the order they were inserted in. */
  lemma {:induction false} StableSortIsStable(ms: seq<Method>, start: u64)
    ensures StartingAt(StableSort(ms), start) == StartingAt(ms, start)
  {
    hide StartingAt, InsertSorted, SortedByStart;
    if ms == [] {
    } else {
      var init, m := ms[..|ms| - 1], ms[|ms| - 1];
      StableSortIsStable(init, start);
      StableSortSorts(init);
      InsertSortedIsStable(StableSort(init), m, start);
      StartingAtAppend(StableSort(init), [m], start);
      StartingAtAppend(init, [m], start);
      assert ms == init + [m];
    }
  }

  // ----- Looking an address up

  /** How many methods at the front start at or below the address. */
  function PartitionPoint(ms: seq<Method>, address: u64): (n: nat)
    ensures n <= |ms|
    ensures forall i :: 0 <= i < n ==> ms[i].start <= address
    ensures n < |ms| ==> ms[n].start > address
  {
    if ms == [] || ms[0].start > address then 0 else 1 + PartitionPoint(ms[1..], address)
  }

  lemma {:induction false} PointIsOnly(ms: seq<Method>, address: u64, n: nat)
    requires n <= |ms| && (n < |ms| ==> ms[n].start > address)
    requires forall i :: 0 <= i < n ==> ms[i].start <= address
    ensures PartitionPoint(ms, address) == n
  {
    if n == 0 {
    } else {
      assert ms[0].start <= address;
      PointIsOnly(ms[1..], address, n - 1);
    }
  }

  /** In a sorted table the point is found by halving. */
  method Bisect(ms: seq<Method>, address: u64) returns (n: nat)
    requires SortedByStart(ms)
    ensures n == PartitionPoint(ms, address)
  {
    var lo, hi: nat := 0, |ms|;
    while lo < hi
      invariant lo <= hi <= |ms|
      invariant forall i :: 0 <= i < lo ==> ms[i].start <= address
      invariant forall i :: hi <= i < |ms| ==> ms[i].start > address
    {
      var mid := lo + (hi - lo) / 2;
      if ms[mid].start <= address {
        lo := mid + 1;
      } else {
        hi := mid;
      }
    }
    n := lo;
    PointIsOnly(ms, address, n);
  }

  /** The method just before the partition point. */
  function Candidate(ms: seq<Method>, address: u64): Option<Method> {
    var n := PartitionPoint(ms, address);
    if n == 0 then None else Some(ms[n - 1])
  }

  function Resolve(ms: seq<Method>, address: u64): Option<Method> {
    match Candidate(ms, address)
    case Some(m) => if Contains(m, address) then Some(m) else None
    case None => None
  }

  class MethodTable {
    var methods: seq<Method>
    var sorted: bool
    /** Everything accepted, in the order it came. */
    ghost var inserted: seq<Method>

    ghost predicate Valid()
      reads this
    {
      && (sorted ==> methods == StableSort(inserted))
      && (forall m <- inserted :: m.size > 0)
      && StableSort(methods) == StableSort(inserted)
      && |methods| == |inserted|
    }

    constructor ()
      ensures Valid() && methods == [] && inserted == []
    {
      methods, sorted, inserted := [], false, [];
    }

    /** Empty ranges hold no address and are not kept. */
    method Insert(m: Method)
      requires Valid()
      modifies this
      ensures Valid() && inserted == if m.size == 0 then old(inserted) else old(inserted) + [m]
    {
      if m.size == 0 {
        return;
      }
      assert (methods + [m])[..|methods|] == methods && (inserted + [m])[..|inserted|] == inserted;
      methods := methods + [m];
      sorted := false;
      inserted := inserted + [m];
    }

    method Count() returns (n: nat)
      ensures n == |methods|
    {
      n := |methods|;
    }

    /** Afterwards the table is sorted; a table not added to is left as it is. */
    method Finish()
      requires Valid()
      modifies this
      ensures Valid() && sorted && inserted == old(inserted) && methods == StableSort(inserted)
    {
      if !sorted {
        StableSortSorts(methods);
        SortedIsFixed(StableSort(methods));
        methods := StableSort(methods);
        sorted := true;
      }
    }

    /** Bisects for the one method that may hold the address, and checks that it does. */
    method ResolveAddress(address: u64) returns (m: Option<Method>)
      requires Valid() && sorted
      ensures m == Resolve(StableSort(inserted), address)
    {
      hide StableSort, SortedByStart, PartitionPoint, Contains;
      StableSortSorts(inserted);
      var index := Bisect(methods, address);
      if index == 0 {
        return None;
      }
      var candidate := methods[index - 1];
      return if Contains(candidate, address) then Some(candidate) else None;
    }
  }

  lemma {:induction false} InsertAtEnd(ms: seq<Method>, m: Method)
    requires forall i :: 0 <= i < |ms| ==> ms[i].start <= m.start
    ensures InsertSorted(ms, m) == ms + [m]
  {
    if ms == [] {
    } else {
      InsertAtEnd(ms[1..], m);
      assert ms == [ms[0]] + ms[1..];
    }
  }

  lemma {:induction false} SortedIsFixed(ms: seq<Method>)
    requires SortedByStart(ms)
    ensures StableSort(ms) == ms
  {
    if ms == [] {
    } else {
      var init := ms[..|ms| - 1];
      SortedIsFixed(init);
      InsertAtEnd(init, ms[|ms| - 1]);
    }
  }

  // ----- What lookup finds

  /**
   The reference, on the methods as inserted: of those starting at or below the address, one starting highest,
   and among equals the last inserted.
   */
  function Nearest(ms: seq<Method>, address: u64): Option<Method> {
    if ms == [] then None
    else
      var m := ms[|ms| - 1];
      var best := Nearest(ms[..|ms| - 1], address);
      if m.start <= address && (best.None? || best.value.start <= m.start) then Some(m) else best
  }

  lemma {:induction false} InsertMovesCandidate(ms: seq<Method>, m: Method, address: u64)
    requires SortedByStart(ms)
    ensures Candidate(InsertSorted(ms, m), address) ==
            (var best := Candidate(ms, address);
             if m.start <= address && (best.None? || best.value.start <= m.start) then Some(m) else best)
  {
    hide Candidate;
    if ms == [] {
      NoCandidate(address);
      CandidateCons(m, [], address);
    } else if m.start < ms[0].start {
      CandidateCons(m, ms, address);
      CandidateIsAbove(ms, address);
    } else {
      InsertMovesCandidate(ms[1..], m, address);
      CandidateCons(ms[0], ms[1..], address);
      CandidateCons(ms[0], InsertSorted(ms[1..], m), address);
      assert ms == [ms[0]] + ms[1..];
    }
  }

  lemma CandidateIsAbove(ms: seq<Method>, address: u64)
    requires SortedByStart(ms) && ms != []
    ensures Candidate(ms, address).Some? ==> ms[0].start <= Candidate(ms, address).value.start <= address
    ensures Candidate(ms, address).None? ==> address < ms[0].start
  {
  }

  lemma CandidateCons(first: Method, tail: seq<Method>, address: u64)
    ensures Candidate([first] + tail, address) ==
            if first.start > address then None
            else if Candidate(tail, address).Some? then Candidate(tail, address)
            else Some(first)
  {
    assert ([first] + tail)[1..] == tail;
  }

  /** Without any assumption on the ranges, lookup considers exactly the nearest method below. */
  lemma {:induction false} ResolveTakesNearest(ms: seq<Method>, address: u64)
    ensures Candidate(StableSort(ms), address) == Nearest(ms, address)
    ensures Resolve(StableSort(ms), address) ==
            match Nearest(ms, address)
            case Some(m) => if Contains(m, address) then Some(m) else None
            case None => None
  {
    hide Candidate, Contains;
    if ms == [] {
      NoCandidate(address);
    } else {
      var init := ms[..|ms| - 1];
      ResolveTakesNearest(init, address);
      StableSortSorts(init);
      InsertMovesCandidate(StableSort(init), ms[|ms| - 1], address);
    }
  }

  lemma NoCandidate(address: u64)
    ensures Candidate([], address) == None
  {
  }

  /** The slow form: the first method in insertion order that contains the address. */
  function Scan(ms: seq<Method>, address: u64): (found: Option<Method>)
    ensures found.Some? ==> found.value in ms && Contains(found.value, address)
    ensures found.None? ==> forall m <- ms :: !Contains(m, address)
  {
    if ms == [] then None
    else if Contains(ms[0], address) then Some(ms[0])
    else Scan(ms[1..], address)
  }

  /** No range runs past the end of the address space, and no two overlap. */
  predicate Disjoint(ms: seq<Method>) {
    && (forall i :: 0 <= i < |ms| ==> ms[i].size > 0 && ms[i].start + ms[i].size < TWO_64)
    && (forall i, j | 0 <= i < |ms| && 0 <= j < |ms| && i != j ::
          ms[i].start + ms[i].size <= ms[j].start || ms[j].start + ms[j].size <= ms[i].start)
  }

  lemma {:induction false} NearestIsNear(ms: seq<Method>, address: u64)
    ensures Nearest(ms, address).None? ==> forall m <- ms :: m.start > address
    ensures Nearest(ms, address).Some? ==>
              && Nearest(ms, address).value in ms && Nearest(ms, address).value.start <= address
              && forall m <- ms | m.start <= address :: m.start <= Nearest(ms, address).value.start
  {
    if ms == [] {
    } else {
      NearestIsNear(ms[..|ms| - 1], address);
      assert forall m <- ms :: m == ms[|ms| - 1] || m in ms[..|ms| - 1];
    }
  }

  /** Of disjoint ranges only one holds an address, and the nearest below it is that one. */
  lemma HolderIsNearest(ms: seq<Method>, i: nat, j: nat, address: u64)
    requires Disjoint(ms) && i < |ms| && j < |ms|
    requires Contains(ms[i], address) && ms[i].start <= ms[j].start <= address
    ensures i == j
  {
    assert ms[i].start + ms[i].size < TWO_64;
    assert ms[j].size > 0;
  }

  /** On disjoint ranges the binary search and the linear scan agree, whatever the insertion order. */
  lemma ResolveIsScan(ms: seq<Method>, address: u64)
    requires Disjoint(ms)
    ensures Resolve(StableSort(ms), address) == Scan(ms, address)
  {
    hide StableSort, Resolve, Candidate, Scan, Nearest, Disjoint;
    ResolveTakesNearest(ms, address);
    NearestIsNear(ms, address);
    var found := Scan(ms, address);
    if found.Some? {
      var near := Nearest(ms, address);
      var i :| 0 <= i < |ms| && ms[i] == found.value;
      var j :| 0 <= j < |ms| && ms[j] == near.value;
      HolderIsNearest(ms, i, j, address);
    }
  }
}
