/**
 A profile from the first byte of its trace to the rows on the screen (src/profile/run.rs, collect, and `hot_methods`
 as src/app.rs calls it).
 */
module Profiles {
  import opened Wire
  import Framing
  import opened Streams
  import opened Blocks
  import opened TraceWriter
  import opened Parser
  import opened Methods
  import opened Samples
  import opened Steps
  import opened Collect
  import opened TraceProfile
  import opened HotMethods
  import opened HotReference

  const COLLECTING: Knowledge := NOTHING_YET.(collectStacks := true)

  /** What a file, preamble and all, is collected to; offsets count from its first byte. */
  function CollectFile(file: seq<byte>, pos: nat): Outcome {
    match Framing.ReadPreamble(file)
    case Failed(e) => Aborted(e)
    case Done(_, s) => CollectFrom(s, pos + |file| - |s|, COLLECTING, NO_PROFILE)
  }

  /** What ranking a file's profile may give. */
  ghost predicate IsProfileOf(file: seq<byte>, pos: nat, limit: nat, includeWaiting: bool, hot: HotProfile) {
    match CollectFile(file, pos)
    case Aborted(_) => false
    case Collected(p) => IsHotProfile(hot, RecordAll(NO_COUNTS, p.log), StableSort(p.methods), limit, includeWaiting)
  }

  /** Open the stream, collect to its end, and rank what was found. */
  method ProfileStream(stream: StreamReader, limit: nat, includeWaiting: bool) returns (r: Result<HotProfile>)
    modifies stream
    ensures match CollectFile(old(stream.inner), old(stream.pos))
            case Aborted(e) => r == Err(e)
            case Collected(_) =>
              r.Ok? && IsProfileOf(old(stream.inner), old(stream.pos), limit, includeWaiting, r.value)
  {
    hide Framing.ReadPreamble, CollectFrom, ReportsFrom, IsHotProfile, RecordAll, StableSort;
    var parser :- Open(stream);
    parser.collectStacks := true;
    var state := new ProfileState();
    var table := new MethodTable();
    var collected, _ := CollectAll(parser, state, table);
    if collected.Err? {
      return Err(collected.error);
    }
    var hot := Rank(state, table, limit, includeWaiting);
    return Ok(hot);
  }

  /** A written file is collected to the log its steps determine and the methods of its events. */
  lemma FileIsCollected(blocks: seq<Block>)
    requires StreamOk(blocks, NO_TRACE, true)
    ensures CollectFile(Framing.PutPreamble(PutStream(blocks, 32, NO_TRACE, true)), 0)
         == Collected(Profile(FinalLog(StepsOf(blocks)), [], MethodsOf(blocks)))
  {
    hide PutStream, StreamOk, CollectFrom, FinalLog, StepsOf, MethodsOf, Framing.ReadPreamble, Framing.PutPreamble;
    Framing.PreambleUndoesPut(PutStream(blocks, 32, NO_TRACE, true));
    TraceProfileIsExact(blocks, 32);
  }

  /**
   From bytes to rows, for any file: what profiling a written file shows is the ranking of its samples, each resolved
   as its steps determine, with every address named by the nearest method below it.
   */
  lemma ProfileOfAFile(blocks: seq<Block>, limit: nat, includeWaiting: bool, hot: HotProfile)
    requires StreamOk(blocks, NO_TRACE, true)
    requires IsProfileOf(Framing.PutPreamble(PutStream(blocks, 32, NO_TRACE, true)), 0, limit, includeWaiting, hot)
    ensures hot == Reference(FinalLog(StepsOf(blocks)), ByNearest(MethodsOf(blocks)), limit,
                             includeWaiting)
  {
    hide PutStream, StreamOk, CollectFile, FinalLog, StepsOf, MethodsOf, IsHotProfile, RecordAll, StableSort, Reference;
    FileIsCollected(blocks);
    HotMethodsAreNearest(hot, FinalLog(StepsOf(blocks)), MethodsOf(blocks), limit,
                         includeWaiting);
  }

  /**
   Where each sample finds its own stack and no methods overlap, it is the slow reference: every sample paired with
   its own stack, every address looked up in the list of methods.
   */
  lemma ProfileIsTheReference(blocks: seq<Block>, own: nat -> nat, limit: nat, includeWaiting: bool, hot: HotProfile)
    requires StreamOk(blocks, NO_TRACE, true)
    requires EachFindsOwn(StepsOf(blocks), own) && Disjoint(MethodsOf(blocks))
    requires IsProfileOf(Framing.PutPreamble(PutStream(blocks, 32, NO_TRACE, true)), 0, limit, includeWaiting, hot)
    ensures var steps := StepsOf(blocks);
            hot == Reference(OwnLog(steps, own, |steps|), ByScan(MethodsOf(blocks)), limit, includeWaiting)
  {
    hide PutStream, StreamOk, CollectFile, FinalLog, StepsOf, MethodsOf, IsHotProfile, RecordAll, StableSort, Reference,
      EachFindsOwn, OwnLog, Disjoint;
    var steps := StepsOf(blocks);
    FileIsCollected(blocks);
    LogIsTheReference(steps, own);
    HotMethodsAreScanned(hot, OwnLog(steps, own, |steps|), MethodsOf(blocks), limit, includeWaiting);
  }
}
