/**
 Sample aggregation (src/profile/state.rs): stacks are counted per address as they arrive and never kept. The
 reference below keeps every stack; the counts are proved to be the reference's.
 */
module Samples {
  import opened Wire

  type Stack = seq<u64>

  /** The counts. `unresolved` are samples whose stack could not be found. */
  datatype Counts = Counts(
    selfCounts: map<u64, nat>,
    totalCounts: map<u64, nat>,
    samples: nat,
    unresolved: nat,
    empty: nat)

  const NO_COUNTS: Counts := Counts(map[], map[], 0, 0, 0)

  function CountAt<K>(m: map<K, nat>, key: K): nat { if key in m then m[key] else 0 }

  function Bump<K>(m: map<K, nat>, key: K, n: nat): map<K, nat> { m[key := CountAt(m, key) + n] }

  /** Frames from `from` on, those addresses left out that an earlier frame already had. */
  function BumpDistinct(m: map<u64, nat>, frames: Stack, from: nat): map<u64, nat>
    requires from <= |frames|
    decreases |frames| - from
  {
    if from == |frames| then m
    else
      BumpDistinct(if frames[from] in frames[..from] then m else Bump(m, frames[from], 1), frames, from + 1)
  }

  /** A sample as it was resolved. */
  datatype Sample = Missing | Found(frames: Stack)

  function Record(c: Counts, s: Sample): Counts {
    match s
    case Missing => c.(samples := c.samples + 1, unresolved := c.unresolved + 1)
    case Found(frames) =>
      if frames == [] then c.(samples := c.samples + 1, empty := c.empty + 1)
      else c.(samples := c.samples + 1, selfCounts := Bump(c.selfCounts, frames[0], 1),
              totalCounts := BumpDistinct(c.totalCounts, frames, 0))
  }

  /** `saturating_sub` twice. */
  function UsableSamples(c: Counts): nat {
    var found := if c.samples >= c.unresolved then c.samples - c.unresolved else 0;
    if found >= c.empty then found - c.empty else 0
  }

  class ProfileState {
    var selfCounts: map<u64, nat>
    var totalCounts: map<u64, nat>
    var samples: nat
    var unresolvedStacks: nat
    var emptyStacks: nat

    ghost function Value(): Counts
      reads this
    {
      Counts(selfCounts, totalCounts, samples, unresolvedStacks, emptyStacks)
    }

    constructor ()
      ensures Value() == NO_COUNTS
    {
      selfCounts, totalCounts := map[], map[];
      samples, unresolvedStacks, emptyStacks := 0, 0, 0;
    }

    /** The first frame is the leaf. */
    method RecordStack(frames: Stack)
      modifies this
      ensures Value() == Record(old(Value()), Found(frames))
    {
      samples := samples + 1;
      if frames == [] {
        emptyStacks := emptyStacks + 1;
        return;
      }
      selfCounts := Bump(selfCounts, frames[0], 1);

      var seen: set<u64> := {};
      for i := 0 to |frames|
        invariant seen == set f | f in frames[..i]
        invariant BumpDistinct(old(totalCounts), frames, 0) == BumpDistinct(totalCounts, frames, i)
        invariant selfCounts == Bump(old(selfCounts), frames[0], 1)
        invariant samples == old(samples) + 1
        invariant unresolvedStacks == old(unresolvedStacks) && emptyStacks == old(emptyStacks)
      {
        assert frames[..i + 1] == frames[..i] + [frames[i]];
        if frames[i] !in seen {
          seen := seen + {frames[i]};
          totalCounts := Bump(totalCounts, frames[i], 1);
        }
      }
    }

    /** Nothing is known of the sample but that it was taken. */
    method RecordMissingStack()
      modifies this
      ensures Value() == Record(old(Value()), Missing)
    {
      samples := samples + 1;
      unresolvedStacks := unresolvedStacks + 1;
    }

    /** How many samples had at least one frame. */
    method Usable() returns (n: nat)
      ensures n == UsableSamples(Value())
    {
      n := if samples >= unresolvedStacks then samples - unresolvedStacks else 0;
      n := if n >= emptyStacks then n - emptyStacks else 0;
    }
  }

  // ----- The reference: every sample kept

  function RecordAll(c: Counts, log: seq<Sample>): Counts {
    if log == [] then c else Record(RecordAll(c, log[..|log| - 1]), log[|log| - 1])
  }

  /** Whether a sample has frames to attribute. */
  predicate Usable(s: Sample) { s.Found? && s.frames != [] }

  function HowMany(log: seq<Sample>, what: Sample -> bool): nat {
    if log == [] then 0 else HowMany(log[..|log| - 1], what) + if what(log[|log| - 1]) then 1 else 0
  }

  function LeafIs(address: u64): Sample -> bool { (s: Sample) => Usable(s) && s.frames[0] == address }

  function Holds(address: u64): Sample -> bool { (s: Sample) => s.Found? && address in s.frames }

  lemma {:induction false} BumpDistinctCounts(m: map<u64, nat>, frames: Stack, from: nat, address: u64)
    requires from <= |frames|
    ensures CountAt(BumpDistinct(m, frames, from), address)
         == CountAt(m, address) + if address in frames && address !in frames[..from] then 1 else 0
    decreases |frames| - from
  {
    if from == |frames| {
      assert frames[..from] == frames;
    } else {
      var m' := if frames[from] in frames[..from] then m else Bump(m, frames[from], 1);
      BumpDistinctCounts(m', frames, from + 1, address);
      assert frames[..from + 1] == frames[..from] + [frames[from]];
    }
  }

  /** Counting as samples arrive gives, for every address, what keeping all stacks would. */
  lemma {:induction false} CountsAreExact(log: seq<Sample>, address: u64)
    ensures CountAt(RecordAll(NO_COUNTS, log).selfCounts, address) == HowMany(log, LeafIs(address))
    ensures CountAt(RecordAll(NO_COUNTS, log).totalCounts, address) == HowMany(log, Holds(address))
  {
    if log == [] {
    } else {
      var init, s := log[..|log| - 1], log[|log| - 1];
      CountsAreExact(init, address);
      if Usable(s) {
        BumpDistinctCounts(RecordAll(NO_COUNTS, init).totalCounts, s.frames, 0, address);
      }
    }
  }

  /** Every sample is counted once: as unresolved, as empty, or as usable. */
  lemma {:induction false} EverySampleCounted(log: seq<Sample>)
    ensures var c := RecordAll(NO_COUNTS, log);
            && c.samples == |log|
            && c.unresolved == HowMany(log, s => s == Missing)
            && c.empty == HowMany(log, s => s == Found([]))
            && UsableSamples(c) == HowMany(log, Usable)
            && c.samples == c.unresolved + c.empty + UsableSamples(c)
  {
    if log == [] {
    } else {
      EverySampleCounted(log[..|log| - 1]);
    }
  }

  /** A leaf is on its own stack, so no address has more self samples than samples it appears in. */
  lemma {:induction false} SelfAtMostTotal(log: seq<Sample>, address: u64)
    ensures HowMany(log, LeafIs(address)) <= HowMany(log, Holds(address)) <= HowMany(log, Usable)
  {
    if log == [] {
    } else {
      SelfAtMostTotal(log[..|log| - 1], address);
    }
  }
}
