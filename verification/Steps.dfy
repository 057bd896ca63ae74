/**
 The order in which a profile's stacks and samples meet (src/profile/run.rs, and StackTable in
 src/nettrace/blocks.rs): stacks are defined, samples wait, and at a boundary everything waiting is resolved and
 the table rotated. Stack ids are recycled, so which definition answers is the whole question.
 */
module Steps {
  import opened Wire
  import opened Samples
  import Parser

  /** A sample's type as it is recorded; a sample of type `Error` is never resolved. */
  datatype SampleType = Error | External | Managed | UnknownType(raw: u32)

  /** A sample waiting for its stack. */
  datatype Waiting = Waiting(stackId: u32, sampleType: SampleType)

  datatype Step =
    | Define(id: u32, stack: Stack)
    | Wait(sample: Waiting)
    | Boundary

  /** The table's two generations, the samples waiting, and those resolved. */
  datatype State = State(current: map<u32, Stack>, previous: map<u32, Stack>, pending: seq<Waiting>, log: seq<Sample>)

  const START: State := State(map[], map[], [], [])

  function SampleOf(w: Waiting, current: map<u32, Stack>, previous: map<u32, Stack>): Sample {
    if w.sampleType == Error then Missing
    else
      match Parser.Lookup(current, previous, w.stackId)
      case Some(frames) => Found(frames)
      case None => Missing
  }

  function Resolved(pending: seq<Waiting>, current: map<u32, Stack>, previous: map<u32, Stack>): (log: seq<Sample>)
    ensures |log| == |pending|
    ensures forall i :: 0 <= i < |log| ==> log[i] == SampleOf(pending[i], current, previous)
  {
    seq(|pending|, i requires 0 <= i < |pending| => SampleOf(pending[i], current, previous))
  }

  function Drained(s: State): State {
    s.(pending := [], log := s.log + Resolved(s.pending, s.current, s.previous))
  }

  function Apply(s: State, x: Step): State {
    match x
    case Define(id, stack) => s.(current := s.current[id := stack])
    case Wait(w) => s.(pending := s.pending + [w])
    case Boundary => Drained(s).(current := map[], previous := s.current)
  }

  function Run(s: State, steps: seq<Step>): State
    decreases |steps|
  {
    if steps == [] then s else Run(Apply(s, steps[0]), steps[1..])
  }

  lemma {:induction false} RunAppend(s: State, a: seq<Step>, b: seq<Step>)
    ensures Run(s, a + b) == Run(Run(s, a), b)
    decreases |a|
  {
    hide Apply;
    if a == [] {
      assert a + b == b;
    } else {
      assert (a + b)[1..] == a[1..] + b;
      RunAppend(Apply(s, a[0]), a[1..], b);
    }
  }

  lemma RunLast(s: State, steps: seq<Step>)
    requires steps != []
    ensures Run(s, steps) == Apply(Run(s, steps[..|steps| - 1]), steps[|steps| - 1])
  {
    hide Apply;
    var init, x := steps[..|steps| - 1], steps[|steps| - 1];
    assert steps == init + [x];
    RunAppend(s, init, [x]);
    assert Run(Run(s, init), [x]) == Run(Apply(Run(s, init), x), []);
  }

  // ----- Which definition answers

  /** The newest definition of an id, looking back no further than `generations` generations. */
  function Newest(steps: seq<Step>, id: u32, generations: nat): Option<Stack> {
    if steps == [] || generations == 0 then None
    else
      var init := steps[..|steps| - 1];
      match steps[|steps| - 1]
      case Define(other, stack) => if other == id then Some(stack) else Newest(init, id, generations)
      case Wait(_) => Newest(init, id, generations)
      case Boundary => Newest(init, id, generations - 1)
  }

  function At(m: map<u32, Stack>, id: u32): Option<Stack> { if id in m then Some(m[id]) else None }

  lemma {:induction false} TableIsNewest(steps: seq<Step>, id: u32)
    ensures At(Run(START, steps).current, id) == Newest(steps, id, 1)
    ensures Parser.Lookup(Run(START, steps).current, Run(START, steps).previous, id) == Newest(steps, id, 2)
    decreases |steps|
  {
    hide Run;
    if steps == [] {
      RunNothing(START);
    } else {
      RunLast(START, steps);
      TableIsNewest(steps[..|steps| - 1], id);
    }
  }

  lemma RunNothing(s: State)
    ensures Run(s, []) == s
  {
  }

  // ----- Which samples are resolved when

  /** The step at which the sample waiting at step `i` is resolved: the next boundary, or the end. */
  function DrainPoint(steps: seq<Step>, i: nat): (d: nat)
    requires i <= |steps|
    ensures i <= d <= |steps|
    ensures forall j :: i <= j < d ==> steps[j] != Boundary
    ensures d < |steps| ==> steps[d] == Boundary
    decreases |steps| - i
  {
    if i == |steps| || steps[i] == Boundary then i else DrainPoint(steps, i + 1)
  }

  /** How many samples come before step `i`. */
  function SamplesBefore(steps: seq<Step>, i: nat): nat
    requires i <= |steps|
  {
    if i == 0 then 0 else SamplesBefore(steps, i - 1) + if steps[i - 1].Wait? then 1 else 0
  }

  /** What a sample is resolved to by the definitions of `steps`. */
  function ResolvedBy(steps: seq<Step>, w: Waiting): Sample {
    if w.sampleType == Error then Missing
    else
      match Newest(steps, w.stackId, 2)
      case Some(frames) => Found(frames)
      case None => Missing
  }

  lemma {:induction false} SamplesBeforeInit(steps: seq<Step>, i: nat)
    requires steps != [] && i < |steps|
    ensures SamplesBefore(steps[..|steps| - 1], i) == SamplesBefore(steps, i)
  {
    if i == 0 {
    } else {
      SamplesBeforeInit(steps, i - 1);
    }
  }

  /** Every sample is either resolved or waiting, never both and never neither. */
  lemma {:induction false} NoSampleLost(steps: seq<Step>)
    ensures |Run(START, steps).log| + |Run(START, steps).pending| == SamplesBefore(steps, |steps|)
    decreases |steps|
  {
    hide Run, Resolved;
    if steps == [] {
      RunNothing(START);
    } else {
      RunLast(START, steps);
      NoSampleLost(steps[..|steps| - 1]);
      SamplesBeforeInit(steps, |steps| - 1);
    }
  }

  lemma {:induction false} DrainPointInit(steps: seq<Step>, i: nat)
    requires steps != [] && i < |steps|
    ensures DrainPoint(steps, i) == if DrainPoint(steps[..|steps| - 1], i) < |steps| - 1 then DrainPoint(steps[..|steps| - 1], i)
                                    else if steps[|steps| - 1] == Boundary then |steps| - 1 else |steps|
    decreases |steps| - i
  {
    var init := steps[..|steps| - 1];
    if i < |steps| - 1 && steps[i] != Boundary {
      DrainPointInit(steps, i + 1);
    } else if i == |steps| - 1 && steps[i] != Boundary {
      assert DrainPoint(steps, i) == DrainPoint(steps, i + 1);
    }
  }

  /** Where the `i`-th step's sample is: in the log once a boundary has passed, waiting in order until then. */
  lemma {:induction false} SampleIsTracked(steps: seq<Step>, i: nat)
    requires i < |steps| && steps[i].Wait?
    ensures var s, r, d := Run(START, steps), SamplesBefore(steps, i), DrainPoint(steps, i);
            if d < |steps| then r < |s.log| && s.log[r] == ResolvedBy(steps[..d], steps[i].sample)
            else |s.log| <= r < |s.log| + |s.pending| && s.pending[r - |s.log|] == steps[i].sample
    decreases |steps|
  {
    hide Run, Resolved, SampleOf, ResolvedBy, DrainPoint, SamplesBefore;
    var init := steps[..|steps| - 1];
    RunLast(START, steps);
    SamplesBeforeInit(steps, i);
    DrainPointInit(steps, i);
    NoSampleLost(init);
    if i < |init| {
      SampleIsTracked(init, i);
      var d := DrainPoint(init, i);
      assert steps[..d] == init[..d];
      if d == |init| && steps[|steps| - 1] == Boundary {
        LookupResolves(init, steps[i].sample);
        assert init[..d] == init;
      }
    } else {
      DrainPointEnd(init);
      SamplesBeforeSelf(init, steps);
    }
  }

  lemma DrainPointEnd(steps: seq<Step>)
    ensures DrainPoint(steps, |steps|) == |steps|
  {
  }

  lemma SamplesBeforeSelf(init: seq<Step>, steps: seq<Step>)
    requires steps != [] && init == steps[..|steps| - 1]
    ensures SamplesBefore(steps, |init|) == SamplesBefore(init, |init|)
  {
    SamplesBeforeInit(steps, |init|);
  }

  lemma LookupResolves(steps: seq<Step>, w: Waiting)
    ensures SampleOf(w, Run(START, steps).current, Run(START, steps).previous) == ResolvedBy(steps, w)
  {
    hide Run;
    TableIsNewest(steps, w.stackId);
  }

  /** The profile of a whole run: what is still waiting at the end is resolved then. */
  function FinalLog(steps: seq<Step>): seq<Sample> { Drained(Run(START, steps)).log }

  /**
   Unconditionally: every sample is logged once, in order, and resolved by the newest definition of its id that
   was read before the drain that consumed it and after the last rotation but one before that drain.
   */
  lemma LogIsExact(steps: seq<Step>, i: nat)
    requires i < |steps| && steps[i].Wait?
    ensures |FinalLog(steps)| == SamplesBefore(steps, |steps|)
    ensures SamplesBefore(steps, i) < |FinalLog(steps)|
    ensures FinalLog(steps)[SamplesBefore(steps, i)]
         == ResolvedBy(steps[..DrainPoint(steps, i)], steps[i].sample)
  {
    hide Run, SampleOf, ResolvedBy, DrainPoint, SamplesBefore;
    NoSampleLost(steps);
    SampleIsTracked(steps, i);
    if DrainPoint(steps, i) == |steps| {
      LookupResolves(steps, steps[i].sample);
      assert steps[..|steps|] == steps;
    }
  }

  /** How many boundaries lie in `steps[lo..hi]`. */
  function Boundaries(steps: seq<Step>, lo: nat, hi: nat): nat
    requires lo <= hi <= |steps|
    decreases hi
  {
    if lo == hi then 0 else Boundaries(steps, lo, hi - 1) + if steps[hi - 1] == Boundary then 1 else 0
  }

  /** A definition still answers while its id is not redefined and at most one rotation has passed. */
  lemma {:induction false} DefinitionAnswers(steps: seq<Step>, j: nat, d: nat, generations: nat)
    requires j < d <= |steps| && steps[j].Define?
    requires forall x :: j < x < d && steps[x].Define? ==> steps[x].id != steps[j].id
    requires Boundaries(steps, j, d) < generations
    ensures Newest(steps[..d], steps[j].id, generations) == Some(steps[j].stack)
    decreases d
  {
    var upTo := steps[..d];
    assert upTo[..d - 1] == steps[..d - 1];
    if d - 1 > j {
      DefinitionAnswers(steps, j, d - 1, if steps[d - 1] == Boundary then generations - 1 else generations);
    }
  }

  /** The sample at step `i` finds the stack defined at step `j`. */
  predicate FindsOwn(steps: seq<Step>, i: nat, j: nat)
    requires i < |steps| && steps[i].Wait?
  {
    var d := DrainPoint(steps, i);
    && j < d && steps[j].Define? && steps[j].id == steps[i].sample.stackId
    && Boundaries(steps, j, d) <= 1
    && forall x :: j < x < d && steps[x].Define? ==> steps[x].id != steps[j].id
  }

  /** The hypothesis under which recycling does no harm, and its consequence. */
  lemma OwnStackIsFound(steps: seq<Step>, i: nat, j: nat)
    requires i < |steps| && steps[i].Wait? && steps[i].sample.sampleType != Error && FindsOwn(steps, i, j)
    ensures SamplesBefore(steps, i) < |FinalLog(steps)|
    ensures FinalLog(steps)[SamplesBefore(steps, i)] == Found(steps[j].stack)
  {
    hide FinalLog, DrainPoint, SamplesBefore, Newest, Boundaries;
    LogIsExact(steps, i);
    DefinitionAnswers(steps, j, DrainPoint(steps, i), 2);
  }

  /** Every usable sample has a definition of its own in reach, at the step `own` gives. */
  ghost predicate EachFindsOwn(steps: seq<Step>, own: nat -> nat) {
    forall i | 0 <= i < |steps| && steps[i].Wait? && steps[i].sample.sampleType != Error :: FindsOwn(steps, i, own(i))
  }

  /** The reference: each sample of the first `n` steps with its own stack. */
  ghost function OwnLog(steps: seq<Step>, own: nat -> nat, n: nat): seq<Sample>
    requires n <= |steps| && EachFindsOwn(steps, own)
  {
    if n == 0 then []
    else
      OwnLog(steps, own, n - 1)
      + if !steps[n - 1].Wait? then []
        else if steps[n - 1].sample.sampleType == Error then [Missing]
        else [Found(steps[own(n - 1)].stack)]
  }

  lemma ErrorsAreMissing(steps: seq<Step>, i: nat)
    requires i < |steps| && steps[i].Wait? && steps[i].sample.sampleType == Error
    ensures SamplesBefore(steps, i) < |FinalLog(steps)|
    ensures FinalLog(steps)[SamplesBefore(steps, i)] == Missing
  {
    hide FinalLog, DrainPoint, SamplesBefore, Newest;
    LogIsExact(steps, i);
  }

  lemma {:induction false} OwnLogIsPrefix(steps: seq<Step>, own: nat -> nat, n: nat)
    requires n <= |steps| && EachFindsOwn(steps, own)
    ensures SamplesBefore(steps, n) <= |FinalLog(steps)|
    ensures OwnLog(steps, own, n) == FinalLog(steps)[..SamplesBefore(steps, n)]
  {
    hide FinalLog, DrainPoint, FindsOwn;
    if n == 0 {
    } else {
      OwnLogIsPrefix(steps, own, n - 1);
      var x := steps[n - 1];
      if x.Wait? {
        if x.sample.sampleType == Error {
          ErrorsAreMissing(steps, n - 1);
        } else {
          OwnStackIsFound(steps, n - 1, own(n - 1));
        }
        var r := SamplesBefore(steps, n - 1);
        assert FinalLog(steps)[..r + 1] == FinalLog(steps)[..r] + [FinalLog(steps)[r]];
      }
    }
  }

  /** Where each usable sample finds its own stack, the log is the reference. */
  lemma LogIsTheReference(steps: seq<Step>, own: nat -> nat)
    requires EachFindsOwn(steps, own)
    ensures FinalLog(steps) == OwnLog(steps, own, |steps|)
  {
    hide FinalLog, OwnLog, EachFindsOwn;
    OwnLogIsPrefix(steps, own, |steps|);
    LogLength(steps);
  }

  lemma LogLength(steps: seq<Step>)
    ensures |FinalLog(steps)| == SamplesBefore(steps, |steps|)
  {
    hide Run, SamplesBefore;
    NoSampleLost(steps);
  }

  /** Where the log departs: a sample resolves to `own` exactly if the newest definition in reach is `own`. */
  lemma FindsOwnExactly(steps: seq<Step>, i: nat, own: Stack)
    requires i < |steps| && steps[i].Wait? && steps[i].sample.sampleType != Error
    ensures SamplesBefore(steps, i) < |FinalLog(steps)|
    ensures FinalLog(steps)[SamplesBefore(steps, i)] == Found(own)
       <==> Newest(steps[..DrainPoint(steps, i)], steps[i].sample.stackId, 2) == Some(own)
  {
    hide FinalLog, DrainPoint, SamplesBefore, Newest;
    LogIsExact(steps, i);
  }

  /**
   The batch behind a sequence point is drained with the samples before it, ahead of its own stacks: a sample there
   gets what its id meant earlier, or nothing, whatever stack is defined for it afterwards.
   */
  lemma StackComesTooLate(before: seq<Step>, w: Waiting, own: Stack, after: seq<Step>)
    requires w.sampleType != Error
    ensures var steps := before + [Wait(w), Boundary, Define(w.stackId, own)] + after;
            var i := |before|;
            && SamplesBefore(steps, i) < |FinalLog(steps)|
            && FinalLog(steps)[SamplesBefore(steps, i)]
               == match Newest(before, w.stackId, 2)
                  case Some(older) => Found(older)
                  case None => Missing
  {
    hide FinalLog, SamplesBefore, Newest;
    var steps := before + [Wait(w), Boundary, Define(w.stackId, own)] + after;
    LogIsExact(steps, |before|);
    assert steps[|before|] == Wait(w) && steps[|before| + 1] == Boundary;
    assert DrainPoint(steps, |before| + 1) == |before| + 1;
    assert DrainPoint(steps, |before|) == |before| + 1;
    assert steps[..|before| + 1] == before + [Wait(w)];
    WaitingDefinesNothing(before, w, 2);
  }

  lemma WaitingDefinesNothing(before: seq<Step>, w: Waiting, generations: nat)
    ensures Newest(before + [Wait(w)], w.stackId, generations) == Newest(before, w.stackId, generations)
  {
    assert (before + [Wait(w)])[..|before|] == before;
  }

  /** For instance: an id recycled across a sequence point answers with the old stack. */
  lemma ARecycledIdAnswersWrongly()
    ensures FinalLog([Define(1, [10]), Wait(Waiting(1, Managed)), Boundary, Define(1, [20])]) == [Found([10])]
  {
    hide FinalLog, SamplesBefore, Newest;
    var w := Waiting(1, Managed);
    var steps := [Define(1, [10])] + [Wait(w), Boundary, Define(1, [20])] + [];
    assert steps == [Define(1, [10]), Wait(w), Boundary, Define(1, [20])];
    StackComesTooLate([Define(1, [10])], w, [20], []);
    LogIsExact(steps, 1);
    OneSample(w, [20]);
  }

  lemma OneSample(w: Waiting, own: Stack)
    ensures Newest([Define(1, [10])], 1, 2) == Some([10])
    ensures var steps := [Define(1, [10]), Wait(w), Boundary, Define(1, own)];
            SamplesBefore(steps, 1) == 0 && SamplesBefore(steps, |steps|) == 1
  {
    var steps := [Define(1, [10]), Wait(w), Boundary, Define(1, own)];
    assert SamplesBefore(steps, 1) == 0;
    assert SamplesBefore(steps, 2) == 1;
    assert SamplesBefore(steps, 3) == 1;
  }
}
