/**
 Sums of per-address counts over the addresses with given labels. A hash map hands its entries over in an
 unspecified order; these lemmas are what makes the order irrelevant.
 */
module Weights {
  import opened Wire
  import opened Names
  import opened Ranking
  import opened Methods
  import opened Samples

  /** What an address outside every method in the table is called. */
  function NativeLabel(): Name { Text("(native / runtime code)") }

  function NameOf(found: Option<Method>): Name {
    match found
    case Some(m) => QualifiedName(m)
    case None => NativeLabel()
  }

  function LabelFor(address: u64, ms: seq<Method>): Name {
    NameOf(Resolve(ms, address))
  }

  /** What one address contributes. */
  ghost function Part(m: map<u64, nat>, address: u64, ms: seq<Method>, names: iset<Name>): nat
    requires address in m
  {
    if LabelFor(address, ms) in names then m[address] else 0
  }

  /** The sum of the counts whose address has a label in `names`. */
  ghost function Weight(m: map<u64, nat>, ms: seq<Method>, names: iset<Name>): nat
    decreases |m|
  {
    if m == map[] then 0
    else
      var a := Pick(m);
      Part(m, a, ms, names) + Weight(m - {a}, ms, names)
  }

  /** Any address may be taken first. */
  lemma {:induction false} WeightSplit(m: map<u64, nat>, address: u64, ms: seq<Method>, names: iset<Name>)
    requires address in m
    ensures Weight(m, ms, names) == Part(m, address, ms, names) + Weight(m - {address}, ms, names)
    decreases |m|
  {
    hide LabelFor;
    var a := Pick(m);
    if a != address {
      WeightSplit(m - {a}, address, ms, names);
      WeightSplit(m - {address}, a, ms, names);
      assert m - {a} - {address} == m - {address} - {a};
    }
  }

  lemma WeightBump(m: map<u64, nat>, address: u64, n: nat, ms: seq<Method>, names: iset<Name>)
    ensures Weight(Bump(m, address, n), ms, names)
         == Weight(m, ms, names) + if LabelFor(address, ms) in names then n else 0
  {
    hide LabelFor, Weight;
    var m' := Bump(m, address, n);
    WeightSplit(m', address, ms, names);
    assert m' - {address} == m - {address};
    if address in m {
      WeightSplit(m, address, ms, names);
    } else {
      assert m - {address} == m;
    }
  }

  lemma {:induction false} WeightUnion(m: map<u64, nat>, ms: seq<Method>, a: iset<Name>, b: iset<Name>)
    requires a !! b
    ensures Weight(m, ms, a + b) == Weight(m, ms, a) + Weight(m, ms, b)
    decreases |m|
  {
    hide LabelFor;
    if m == map[] {
    } else {
      WeightUnion(m - {Pick(m)}, ms, a, b);
    }
  }

  /** Only labels that occur matter. */
  lemma {:induction false} WeightAgrees(m: map<u64, nat>, ms: seq<Method>, a: iset<Name>, b: iset<Name>)
    requires forall address <- m.Keys :: LabelFor(address, ms) in a <==> LabelFor(address, ms) in b
    ensures Weight(m, ms, a) == Weight(m, ms, b)
    decreases |m|
  {
    hide LabelFor;
    if m == map[] {
    } else {
      WeightAgrees(m - {Pick(m)}, ms, a, b);
    }
  }

  lemma {:induction false} NoWeight(m: map<u64, nat>, ms: seq<Method>)
    ensures Weight(m, ms, iset{}) == 0
    decreases |m|
  {
    hide LabelFor;
    if m == map[] {
    } else {
      NoWeight(m - {Pick(m)}, ms);
    }
  }

  // ----- Against the stacks themselves

  /** Samples whose innermost frame has a label in `names`. */
  ghost function LeafIn(ms: seq<Method>, names: iset<Name>): Sample -> bool {
    (s: Sample) => Usable(s) && LabelFor(s.frames[0], ms) in names
  }

  /** The distinct addresses of a stack with a label in `names`. */
  ghost function AddressesIn(frames: Stack, ms: seq<Method>, names: iset<Name>): set<u64> {
    set a | a in frames && LabelFor(a, ms) in names
  }

  /** Summed over all stacks. */
  ghost function AppearancesIn(log: seq<Sample>, ms: seq<Method>, names: iset<Name>): nat {
    if log == [] then 0
    else
      AppearancesIn(log[..|log| - 1], ms, names)
      + (match log[|log| - 1]
         case Missing => 0
         case Found(frames) => |AddressesIn(frames, ms, names)|)
  }

  /** Looking at one more frame settles at most one more address. */
  lemma NextAddress(frames: Stack, from: nat, ms: seq<Method>, names: iset<Name>)
    requires from < |frames|
    ensures |AddressesIn(frames, ms, names) - AddressesIn(frames[..from], ms, names)|
         == |AddressesIn(frames, ms, names) - AddressesIn(frames[..from + 1], ms, names)|
            + if frames[from] !in frames[..from] && LabelFor(frames[from], ms) in names then 1 else 0
  {
    hide LabelFor;
    var a := frames[from];
    var all := AddressesIn(frames, ms, names);
    var before, now := AddressesIn(frames[..from], ms, names), AddressesIn(frames[..from + 1], ms, names);
    assert frames[..from + 1] == frames[..from] + [a];
    if a in frames[..from] || LabelFor(a, ms) !in names {
      assert now == before;
    } else {
      assert now == before + {a};
      assert all - before == (all - now) + {a};
    }
  }

  lemma {:induction false} WeightBumpDistinct(m: map<u64, nat>, frames: Stack, from: nat, ms: seq<Method>, names: iset<Name>)
    requires from <= |frames|
    ensures Weight(BumpDistinct(m, frames, from), ms, names)
         == Weight(m, ms, names) + |AddressesIn(frames, ms, names) - AddressesIn(frames[..from], ms, names)|
    decreases |frames| - from
  {
    hide LabelFor, Weight, AddressesIn, Bump;
    if from == |frames| {
      assert frames[..from] == frames;
      assert AddressesIn(frames, ms, names) - AddressesIn(frames, ms, names) == {};
    } else {
      NextAddress(frames, from, ms, names);
      if frames[from] in frames[..from] {
        WeightBumpDistinct(m, frames, from + 1, ms, names);
      } else {
        WeightBumpDistinct(Bump(m, frames[from], 1), frames, from + 1, ms, names);
        WeightBump(m, frames[from], 1, ms, names);
      }
    }
  }

  /** The counts, summed by label, are what the list of stacks says. */
  lemma {:induction false} WeightsAreExact(log: seq<Sample>, ms: seq<Method>, names: iset<Name>)
    ensures Weight(RecordAll(NO_COUNTS, log).selfCounts, ms, names) == HowMany(log, LeafIn(ms, names))
    ensures Weight(RecordAll(NO_COUNTS, log).totalCounts, ms, names) == AppearancesIn(log, ms, names)
  {
    hide LabelFor, Bump, BumpDistinct;
    if log == [] {
    } else {
      var init, s := log[..|log| - 1], log[|log| - 1];
      var c := RecordAll(NO_COUNTS, init);
      WeightsAreExact(init, ms, names);
      if Usable(s) {
        WeightBump(c.selfCounts, s.frames[0], 1, ms, names);
        WeightBumpDistinct(c.totalCounts, s.frames, 0, ms, names);
        assert s.frames[..0] == [];
        assert AddressesIn(s.frames, ms, names) - AddressesIn([], ms, names) == AddressesIn(s.frames, ms, names);
      } else if s.Found? {
        assert AddressesIn(s.frames, ms, names) == {};
      }
    }
  }

  ghost function Anything(): iset<Name> { iset n: Name | 0 <= |n| }

  /** Every usable sample has one leaf. */
  lemma {:induction false} AllLeaves(log: seq<Sample>, ms: seq<Method>)
    ensures HowMany(log, LeafIn(ms, Anything())) == HowMany(log, Usable)
  {
    hide LabelFor;
    if log == [] {
    } else {
      AllLeaves(log[..|log| - 1], ms);
    }
  }

  /** A label's self count never exceeds its total. */
  lemma {:induction false} LabelSelfAtMostTotal(log: seq<Sample>, ms: seq<Method>, names: iset<Name>)
    ensures HowMany(log, LeafIn(ms, names)) <= AppearancesIn(log, ms, names)
  {
    hide LabelFor;
    if log == [] {
    } else {
      LabelSelfAtMostTotal(log[..|log| - 1], ms, names);
      var s := log[|log| - 1];
      if LeafIn(ms, names)(s) {
        assert s.frames[0] in AddressesIn(s.frames, ms, names);
      }
    }
  }

  /** No stack holds two different addresses with this label. */
  ghost predicate OneAddressPerStack(log: seq<Sample>, ms: seq<Method>, name: Name) {
    forall s <- log | s.Found? ::
      forall a, b | a in s.frames && b in s.frames && LabelFor(a, ms) == name && LabelFor(b, ms) == name :: a == b
  }

  /** Under that hypothesis a label's total is a number of stacks, so at most all usable ones. */
  lemma {:induction false} LabelTotalAtMostUsable(log: seq<Sample>, ms: seq<Method>, name: Name)
    requires OneAddressPerStack(log, ms, name)
    ensures AppearancesIn(log, ms, iset{name}) <= HowMany(log, Usable)
  {
    hide LabelFor;
    if log == [] {
    } else {
      LabelTotalAtMostUsable(log[..|log| - 1], ms, name);
      var s := log[|log| - 1];
      assert s in log;
      if s.Found? {
        var found := AddressesIn(s.frames, ms, iset{name});
        if found != {} {
          var a :| a in found;
          assert found == {a};
        }
      }
    }
  }

  /** Stacks the label is on, once each. */
  ghost function OnStack(ms: seq<Method>, name: Name): Sample -> bool {
    (s: Sample) => s.Found? && AddressesIn(s.frames, ms, iset{name}) != {}
  }

  lemma OneAddressIsOne(frames: Stack, ms: seq<Method>, name: Name)
    ensures var found := AddressesIn(frames, ms, iset{name});
            |found| <= 1 <==> forall a, b | a in frames && b in frames && LabelFor(a, ms) == name && LabelFor(b, ms) == name
                              :: a == b
  {
    hide LabelFor;
    var found := AddressesIn(frames, ms, iset{name});
    assert forall a :: a in found <==> a in frames && LabelFor(a, ms) == name;
    if found != {} {
      var a :| a in found;
      var rest := found - {a};
      assert |found| == 1 + |rest|;
      if rest == {} {
        assert found == {a};
        assert forall b | b in frames && LabelFor(b, ms) == name :: b in found;
      } else {
        var b :| b in rest;
        assert a in frames && b in frames && a != b;
      }
    }
  }

  /** A label's total is the number of stacks it is on exactly under that hypothesis; otherwise it is more. */
  lemma {:induction false} TotalCountsStacks(log: seq<Sample>, ms: seq<Method>, name: Name)
    ensures AppearancesIn(log, ms, iset{name}) >= HowMany(log, OnStack(ms, name))
    ensures AppearancesIn(log, ms, iset{name}) == HowMany(log, OnStack(ms, name)) <==> OneAddressPerStack(log, ms, name)
  {
    hide LabelFor, AddressesIn;
    if log == [] {
    } else {
      var init, s := log[..|log| - 1], log[|log| - 1];
      TotalCountsStacks(init, ms, name);
      assert log == init + [s];
      assert OneAddressPerStack(log, ms, name) <==> OneAddressPerStack(init, ms, name) && OneAddressPerStack([s], ms, name);
      if s.Found? {
        OneAddressIsOne(s.frames, ms, name);
      }
    }
  }

  /** How often the label's other addresses are counted beyond one for each stack it is on. */
  ghost function Extra(log: seq<Sample>, ms: seq<Method>, name: Name): nat {
    if log == [] then 0
    else
      var s := log[|log| - 1];
      Extra(log[..|log| - 1], ms, name)
      + if OnStack(ms, name)(s) then |AddressesIn(s.frames, ms, iset{name})| - 1 else 0
  }

  /** Usable stacks the label is not on. */
  ghost function OffStack(ms: seq<Method>, name: Name): Sample -> bool {
    (s: Sample) => Usable(s) && !OnStack(ms, name)(s)
  }

  /** A total is its stacks and the extra addresses; the usable samples are the stacks it is on and the others. */
  lemma {:induction false} TotalSplitsInStacks(log: seq<Sample>, ms: seq<Method>, name: Name)
    ensures AppearancesIn(log, ms, iset{name}) == HowMany(log, OnStack(ms, name)) + Extra(log, ms, name)
    ensures HowMany(log, Usable) == HowMany(log, OnStack(ms, name)) + HowMany(log, OffStack(ms, name))
    ensures HowMany(log, OnStack(ms, name)) == 0 ==> Extra(log, ms, name) == 0
  {
    hide LabelFor;
    if log == [] {
    } else {
      TotalSplitsInStacks(log[..|log| - 1], ms, name);
      var s := log[|log| - 1];
      if s.Found? && s.frames == [] {
        assert AddressesIn(s.frames, ms, iset{name}) == {};
      }
    }
  }

  /** A label's total stays within the usable samples exactly if stacks without it make up for its extra addresses. */
  lemma TotalFitsExactly(log: seq<Sample>, ms: seq<Method>, name: Name)
    ensures HowMany(log, Usable) == 0 ==> AppearancesIn(log, ms, iset{name}) == 0
    ensures AppearancesIn(log, ms, iset{name}) <= HowMany(log, Usable)
       <==> Extra(log, ms, name) <= HowMany(log, OffStack(ms, name))
  {
    TotalSplitsInStacks(log, ms, name);
  }

  /** No extra addresses means no stack holds two, and the other way round. */
  lemma NoExtraExactly(log: seq<Sample>, ms: seq<Method>, name: Name)
    ensures Extra(log, ms, name) == 0 <==> OneAddressPerStack(log, ms, name)
  {
    TotalSplitsInStacks(log, ms, name);
    TotalCountsStacks(log, ms, name);
  }
}
