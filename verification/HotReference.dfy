/**
 The ranking against a reference computed from the full list of samples (src/profile/state.rs, hot_methods): every
 stack kept, every address labelled the slow way. It has no counts, no table and no hash maps.
 */
module HotReference {
  import opened Wire
  import opened Names
  import opened Methods
  import opened Samples
  import opened Weights
  import opened Ranking
  import opened HotMethods

  // ----- The reference

  /** What to call each address. */
  type Naming = u64 -> Name

  /** By looking through all the methods for the first that holds the address. */
  function ByScan(ms: seq<Method>): Naming {
    (a: u64) => match Scan(ms, a)
                case Some(m) => QualifiedName(m)
                case None => Text("(native / runtime code)")
  }

  /** By the method starting nearest below the address, if that one holds it. */
  function ByNearest(ms: seq<Method>): Naming {
    (a: u64) => match Nearest(ms, a)
                case Some(m) => if Contains(m, a) then QualifiedName(m) else Text("(native / runtime code)")
                case None => Text("(native / runtime code)")
  }

  /** Whether a method of this name as the innermost frame means that the thread is parked. */
  predicate Parks(name: Name) { Blocks(name) || AwaitsWork(name) }

  predicate Blocks(name: Name) {
    || name == Text("System.Threading.Monitor.Wait")
    || name == Text("System.Threading.ManualResetEventSlim.Wait")
    || name == Text("System.Threading.WaitHandle.WaitOneNoCheck")
    || name == Text("System.Threading.LowLevelLifoSemaphore.Wait")
    || name == Text("System.Threading.LowLevelLifoSemaphore.WaitForSignal")
    || name == Text("System.Threading.LowLevelMonitor.Wait")
    || name == Text("System.Threading.SemaphoreSlim.WaitUntilCountOrTimeout")
    || name == Text("System.Threading.Thread.Sleep")
    || name == Text("System.Threading.Thread.SleepInternal")
  }

  predicate AwaitsWork(name: Name) {
    || name == Text("System.Threading.PortableThreadPool+WorkerThread.WorkerThreadStart")
    || name == Text("System.Threading.PortableThreadPool+GateThread.GateThreadStart")
    || name == Watching()
    || name == Text("Microsoft.Extensions.Logging.Console.ConsoleLoggerProcessor.TryDequeue")
    || name == Text("System.Net.Sockets.SocketAsyncEngine.EventLoop")
  }

  function Watching(): Name {
    Text("System.IO.FileSystemWatcher+RunningInstance+StaticWatcherRunLoopManager.WatchForFileSystemEventsThreadStart")
  }

  ghost function Parked(): iset<Name> { iset n: Name | Parks(n) }

  ghost function Shown(includeWaiting: bool): iset<Name> { iset n: Name | includeWaiting || !Parks(n) }

  /** The addresses on any stack. */
  ghost function AddressesOf(log: seq<Sample>): set<u64> {
    if log == [] then {}
    else
      AddressesOf(log[..|log| - 1])
      + (match log[|log| - 1]
         case Missing => {}
         case Found(frames) => set a | a in frames)
  }

  ghost function LeafNamed(naming: Naming, names: iset<Name>): Sample -> bool {
    (s: Sample) => Usable(s) && naming(s.frames[0]) in names
  }

  /** How many distinct addresses with the label each stack has, over all stacks. */
  ghost function AppearancesNamed(log: seq<Sample>, naming: Naming, name: Name): nat {
    if log == [] then 0
    else
      AppearancesNamed(log[..|log| - 1], naming, name)
      + (match log[|log| - 1]
         case Missing => 0
         case Found(frames) => |set a | a in frames && naming(a) == name|)
  }

  ghost function ReferenceRow(name: Name, log: seq<Sample>, naming: Naming): HotMethod {
    var self, total := HowMany(log, LeafNamed(naming, iset{name})), AppearancesNamed(log, naming, name);
    HotMethod(name, self, total, Percent(self, HowMany(log, Usable)), Percent(total, HowMany(log, Usable)))
  }

  /** The labels of everything on any stack. */
  ghost function LabelsOf(log: seq<Sample>, naming: Naming): set<Name> {
    set a | a in AddressesOf(log) :: naming(a)
  }

  ghost function ReferenceRows(log: seq<Sample>, naming: Naming, includeWaiting: bool): set<HotMethod> {
    set n | n in LabelsOf(log, naming) && n in Shown(includeWaiting) :: ReferenceRow(n, log, naming)
  }

  /** A row for each label shown, in the one order they have. */
  ghost function ReferenceRanking(log: seq<Sample>, naming: Naming, includeWaiting: bool): seq<HotMethod> {
    SortBy(InSomeOrder(ReferenceRows(log, naming, includeWaiting)), Before)
  }

  /** The top of that ranking, and the samples whose leaf is shown or not. */
  ghost function Reference(log: seq<Sample>, naming: Naming, limit: nat, includeWaiting: bool): HotProfile {
    HotProfile(
      Truncate(ReferenceRanking(log, naming, includeWaiting), limit),
      HowMany(log, LeafNamed(naming, Shown(includeWaiting))),
      if includeWaiting then 0 else HowMany(log, LeafNamed(naming, Parked())))
  }

  /** The reference hides the labels that are hidden, and shows the others. */
  lemma ParkedAreWaitFrames(includeWaiting: bool)
    ensures Parked() == WaitNames() && Shown(includeWaiting) == ShownNames(includeWaiting)
  {
    hide Parks, IsWaitFrame;
    forall n: Name
      ensures n in Parked() <==> n in WaitNames()
      ensures n in Shown(includeWaiting) <==> n in ShownNames(includeWaiting)
    {
      ParksExactly(n);
    }
  }

  lemma BlocksExactly(n: Name)
    ensures Blocks(n) <==> n in Primitives()
  {
    hide Text;
  }

  lemma AwaitsWorkExactly(n: Name)
    ensures AwaitsWork(n) <==> n in Loops()
  {
    hide Text, Watching, WatcherLoop;
    WatchingIsALoop();
  }

  lemma WatchingIsALoop()
    ensures Watching() == WatcherLoop()
  {
    hide Text;
  }

  lemma ParksExactly(n: Name)
    ensures Parks(n) <==> IsWaitFrame(n)
  {
    hide Blocks, AwaitsWork, Primitives, Loops;
    BlocksExactly(n);
    AwaitsWorkExactly(n);
  }

  // ----- Which labels get a row

  lemma {:induction false} BumpDistinctKeys(m: map<u64, nat>, frames: Stack, from: nat)
    requires from <= |frames|
    ensures m.Keys <= BumpDistinct(m, frames, from).Keys
    ensures BumpDistinct(m, frames, from).Keys + (set a | a in frames[..from]) == m.Keys + set a | a in frames
    decreases |frames| - from
  {
    if from == |frames| {
      assert frames[..from] == frames;
    } else {
      var m' := if frames[from] in frames[..from] then m else Bump(m, frames[from], 1);
      BumpDistinctKeys(m', frames, from + 1);
      assert frames[..from + 1] == frames[..from] + [frames[from]];
    }
  }

  /** The addresses counted are those on the stacks: none with a count of nothing, and every leaf among them. */
  lemma {:induction false} KeysAreTheAddresses(log: seq<Sample>)
    ensures RecordAll(NO_COUNTS, log).totalCounts.Keys == AddressesOf(log)
    ensures RecordAll(NO_COUNTS, log).selfCounts.Keys <= AddressesOf(log)
  {
    hide BumpDistinct;
    if log == [] {
    } else {
      var init, s := log[..|log| - 1], log[|log| - 1];
      KeysAreTheAddresses(init);
      if Usable(s) {
        BumpDistinctKeys(RecordAll(NO_COUNTS, init).totalCounts, s.frames, 0);
      }
    }
  }

  lemma LabelsAgree(m: map<u64, nat>, log: seq<Sample>, ms: seq<Method>, naming: Naming)
    requires m.Keys <= AddressesOf(log) && forall a <- AddressesOf(log) :: LabelFor(a, ms) == naming(a)
    ensures Labels(m, ms) <= LabelsOf(log, naming)
    ensures m.Keys == AddressesOf(log) ==> Labels(m, ms) == LabelsOf(log, naming)
  {
    hide LabelFor;
  }

  /** The table names every sampled address as the reference does. */
  ghost predicate Agrees(log: seq<Sample>, ms: seq<Method>, naming: Naming) {
    forall a <- AddressesOf(log) :: LabelFor(a, ms) == naming(a)
  }

  /** The labels with a row are exactly those of the addresses on the stacks: no row is missing, none is made up. */
  lemma RowNamesAreExact(log: seq<Sample>, ms: seq<Method>, naming: Naming, includeWaiting: bool)
    requires Agrees(log, ms, naming)
    ensures RowNames(RecordAll(NO_COUNTS, log), ms, includeWaiting)
         == set n | n in LabelsOf(log, naming) && n in Shown(includeWaiting)
  {
    hide LabelFor, RecordAll, Labels, LabelsOf, IsWaitFrame, Parks, Parked, WaitNames;
    ParkedAreWaitFrames(includeWaiting);
    KeysAreTheAddresses(log);
    LabelsAgree(RecordAll(NO_COUNTS, log).totalCounts, log, ms, naming);
    LabelsAgree(RecordAll(NO_COUNTS, log).selfCounts, log, ms, naming);
  }

  // ----- What the rows say

  lemma {:induction false} LeavesAgree(log: seq<Sample>, ms: seq<Method>, naming: Naming, names: iset<Name>)
    requires Agrees(log, ms, naming)
    ensures HowMany(log, LeafIn(ms, names)) == HowMany(log, LeafNamed(naming, names))
  {
    hide LabelFor;
    if log == [] {
    } else {
      var init, s := log[..|log| - 1], log[|log| - 1];
      LeavesAgree(init, ms, naming, names);
      if Usable(s) {
        assert s.frames[0] in AddressesOf(log);
      }
    }
  }

  lemma {:induction false} AppearancesAgree(log: seq<Sample>, ms: seq<Method>, naming: Naming, name: Name)
    requires Agrees(log, ms, naming)
    ensures AppearancesIn(log, ms, iset{name}) == AppearancesNamed(log, naming, name)
  {
    hide LabelFor;
    if log == [] {
    } else {
      var init, s := log[..|log| - 1], log[|log| - 1];
      AppearancesAgree(init, ms, naming, name);
      if s.Found? {
        assert forall a <- s.frames :: a in AddressesOf(log);
        assert AddressesIn(s.frames, ms, iset{name}) == set a | a in s.frames && naming(a) == name;
      }
    }
  }

  lemma RowIsReference(name: Name, log: seq<Sample>, ms: seq<Method>, naming: Naming)
    requires Agrees(log, ms, naming)
    ensures RowOf(name, RecordAll(NO_COUNTS, log), ms) == ReferenceRow(name, log, naming)
  {
    hide LabelFor, RecordAll, Weight, HowMany, AppearancesIn, AppearancesNamed, LeafIn, LeafNamed, UsableSamples, Percent,
      AddressesOf;
    WeightsAreExact(log, ms, iset{name});
    EverySampleCounted(log);
    LeavesAgree(log, ms, naming, iset{name});
    AppearancesAgree(log, ms, naming, name);
  }

  lemma RowsAreReference(log: seq<Sample>, ms: seq<Method>, naming: Naming, includeWaiting: bool)
    requires Agrees(log, ms, naming)
    ensures var c := RecordAll(NO_COUNTS, log);
            RowsOf(RowNames(c, ms, includeWaiting), c, ms) == ReferenceRows(log, naming, includeWaiting)
  {
    hide Agrees, RecordAll, RowOf, ReferenceRow, RowNames, Shown, LabelsOf;
    RowNamesAreExact(log, ms, naming, includeWaiting);
    forall name
      ensures RowOf(name, RecordAll(NO_COUNTS, log), ms) == ReferenceRow(name, log, naming)
    {
      RowIsReference(name, log, ms, naming);
    }
  }

  // ----- The whole result

  /** There is one ranking of these samples, and sorting the reference's rows gives it. */
  lemma RankingIsReference(ranking: seq<HotMethod>, log: seq<Sample>, ms: seq<Method>, naming: Naming,
                           includeWaiting: bool)
    requires IsRanking(ranking, RecordAll(NO_COUNTS, log), ms, includeWaiting) && Agrees(log, ms, naming)
    ensures ranking == ReferenceRanking(log, naming, includeWaiting)
  {
    hide Agrees, RecordAll, RowNames, RowsOf, ReferenceRows, Before, Ranked, StrictTotalOrder, SortBy, Elements, Distinct,
      InSomeOrder;
    var c := RecordAll(NO_COUNTS, log);
    var rows := ReferenceRows(log, naming, includeWaiting);
    RowsAreReference(log, ms, naming, includeWaiting);
    BeforeIsTotal(RowNames(c, ms, includeWaiting), c, ms);
    SortByRanks(InSomeOrder(rows), Before, rows);
    RankingIsUnique(ranking, SortBy(InSomeOrder(rows), Before), Before, rows);
  }

  /** Where the table agrees on every sampled address, the result is the reference's, row for row. */
  lemma ProfileIsReference(hot: HotProfile, log: seq<Sample>, ms: seq<Method>, naming: Naming, limit: nat,
                           includeWaiting: bool)
    requires IsHotProfile(hot, RecordAll(NO_COUNTS, log), ms, limit, includeWaiting) && Agrees(log, ms, naming)
    ensures hot == Reference(log, naming, limit, includeWaiting)
  {
    hide Agrees, RecordAll, IsRanking, ReferenceRows, Weight, HowMany, LeafIn, LeafNamed, ReferenceRanking, ShownNames, WaitNames, Shown,
      Parked, Parks;
    ParkedAreWaitFrames(includeWaiting);
    var ranking :| IsRanking(ranking, RecordAll(NO_COUNTS, log), ms, includeWaiting) && hot.rows == Truncate(ranking, limit);
    RankingIsReference(ranking, log, ms, naming, includeWaiting);
    WeightsAreExact(log, ms, ShownNames(includeWaiting));
    LeavesAgree(log, ms, naming, ShownNames(includeWaiting));
    WeightsAreExact(log, ms, WaitNames());
    LeavesAgree(log, ms, naming, WaitNames());
  }

  /** Whatever the method ranges: the ranking of the samples with each address named by the nearest method below it. */
  lemma HotMethodsAreNearest(hot: HotProfile, log: seq<Sample>, inserted: seq<Method>, limit: nat, includeWaiting: bool)
    requires IsHotProfile(hot, RecordAll(NO_COUNTS, log), StableSort(inserted), limit, includeWaiting)
    ensures hot == Reference(log, ByNearest(inserted), limit, includeWaiting)
  {
    hide IsHotProfile, Reference, RecordAll, StableSort, AddressesOf, Resolve, Nearest, Contains;
    forall a <- AddressesOf(log)
      ensures LabelFor(a, StableSort(inserted)) == ByNearest(inserted)(a)
    {
      ResolveTakesNearest(inserted, a);
    }
    ProfileIsReference(hot, log, StableSort(inserted), ByNearest(inserted), limit, includeWaiting);
  }

  /** Where no ranges overlap: the ranking of the samples with each address named by looking through all the methods. */
  lemma HotMethodsAreScanned(hot: HotProfile, log: seq<Sample>, inserted: seq<Method>, limit: nat, includeWaiting: bool)
    requires IsHotProfile(hot, RecordAll(NO_COUNTS, log), StableSort(inserted), limit, includeWaiting)
    requires Disjoint(inserted)
    ensures hot == Reference(log, ByScan(inserted), limit, includeWaiting)
  {
    hide IsHotProfile, Reference, RecordAll, StableSort, AddressesOf, Resolve, Scan, Disjoint;
    forall a <- AddressesOf(log)
      ensures LabelFor(a, StableSort(inserted)) == ByScan(inserted)(a)
    {
      ResolveIsScan(inserted, a);
    }
    ProfileIsReference(hot, log, StableSort(inserted), ByScan(inserted), limit, includeWaiting);
  }
}
