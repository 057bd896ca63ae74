/**
 Ranking methods by self time (src/profile/state.rs, hot_methods), and what the ranking means in terms of the
 stacks that were sampled.
 */
module HotMethods {
  import opened Wire
  import opened Names
  import opened Methods
  import opened Samples
  import opened Weights
  import opened Ranking

  /** Methods a thread sits in while it waits: the blocking primitives, and loops that wait for work. */
  function WaitFrames(): seq<Name> { Primitives() + Loops() }

  function Primitives(): seq<Name> {
    [Text("System.Threading.Monitor.Wait"),
     Text("System.Threading.ManualResetEventSlim.Wait"),
     Text("System.Threading.WaitHandle.WaitOneNoCheck"),
     Text("System.Threading.LowLevelLifoSemaphore.Wait"),
     Text("System.Threading.LowLevelLifoSemaphore.WaitForSignal"),
     Text("System.Threading.LowLevelMonitor.Wait"),
     Text("System.Threading.SemaphoreSlim.WaitUntilCountOrTimeout"),
     Text("System.Threading.Thread.Sleep"),
     Text("System.Threading.Thread.SleepInternal")]
  }

  function Loops(): seq<Name> {
    [Text("System.Threading.PortableThreadPool+WorkerThread.WorkerThreadStart"),
     Text("System.Threading.PortableThreadPool+GateThread.GateThreadStart"),
     WatcherLoop(),
     Text("Microsoft.Extensions.Logging.Console.ConsoleLoggerProcessor.TryDequeue"),
     Text("System.Net.Sockets.SocketAsyncEngine.EventLoop")]
  }

  function WatcherLoop(): Name {
    Text("System.IO.FileSystemWatcher+RunningInstance+StaticWatcherRunLoopManager.WatchForFileSystemEventsThreadStart")
  }

  predicate IsWaitFrame(name: Name) { name in WaitFrames() }

  /** A label with its two counts and their shares of the usable samples. */
  datatype HotMethod = HotMethod(name: Name, selfSamples: nat, totalSamples: nat, selfPercent: real, totalPercent: real)

  datatype HotProfile = HotProfile(rows: seq<HotMethod>, workingSamples: nat, waitingSamples: nat)

  /** By self time, then total time, then name. */
  predicate Before(a: HotMethod, b: HotMethod) {
    a.selfSamples > b.selfSamples ||
    (a.selfSamples == b.selfSamples &&
     (a.totalSamples > b.totalSamples || (a.totalSamples == b.totalSamples && NameLess(a.name, b.name))))
  }

  function Percent(part: nat, whole: nat): real {
    part as real / (if whole >= 1 then whole else 1) as real * 100.0
  }

  // ----- Specification

  ghost function WaitNames(): iset<Name> { iset n: Name | IsWaitFrame(n) }

  ghost function ShownNames(includeWaiting: bool): iset<Name> { iset n: Name | includeWaiting || !IsWaitFrame(n) }

  ghost function NamesIn(names: set<Name>): iset<Name> { iset n | n in names }

  ghost function NamesOf(rows: seq<HotMethod>): iset<Name> { iset row | row in rows :: row.name }

  ghost function RowOf(name: Name, c: Counts, ms: seq<Method>): HotMethod {
    var self := Weight(c.selfCounts, ms, iset{name});
    var total := Weight(c.totalCounts, ms, iset{name});
    HotMethod(name, self, total, Percent(self, UsableSamples(c)), Percent(total, UsableSamples(c)))
  }

  ghost function Labels(m: map<u64, nat>, ms: seq<Method>): set<Name> {
    set a | a in m :: LabelFor(a, ms)
  }

  /** The labels to show. */
  ghost function Kept(labels: set<Name>, includeWaiting: bool): set<Name> {
    set n | n in labels && (includeWaiting || !IsWaitFrame(n))
  }

  ghost function RowNames(c: Counts, ms: seq<Method>, includeWaiting: bool): set<Name> {
    Kept(Labels(c.selfCounts, ms) + Labels(c.totalCounts, ms), includeWaiting)
  }

  ghost function RowsOf(names: set<Name>, c: Counts, ms: seq<Method>): set<HotMethod> {
    set n | n in names :: RowOf(n, c, ms)
  }

  /** What a ranking of these counts is: each shown label's row once, in order. */
  ghost predicate IsRanking(rows: seq<HotMethod>, c: Counts, ms: seq<Method>, includeWaiting: bool) {
    Ranked(rows, Before) && Elements(rows) == RowsOf(RowNames(c, ms, includeWaiting), c, ms)
  }

  lemma BeforeIsTotal(names: set<Name>, c: Counts, ms: seq<Method>)
    ensures StrictTotalOrder(Before, RowsOf(names, c, ms))
  {
    hide RowOf;
    var rows := RowsOf(names, c, ms);
    forall x | x in rows
      ensures !Before(x, x)
    {
      NameLessIrreflexive(x.name);
    }
    forall x, y, z | x in rows && y in rows && z in rows && Before(x, y) && Before(y, z)
      ensures Before(x, z)
    {
      if NameLess(x.name, y.name) && NameLess(y.name, z.name) {
        NameLessTransitive(x.name, y.name, z.name);
      }
    }
    forall x, y | x in rows && y in rows
      ensures x == y || Before(x, y) || Before(y, x)
    {
      NameLessTotal(x.name, y.name);
      RowsByName(names, c, ms, x);
      RowsByName(names, c, ms, y);
    }
  }

  lemma RowsByName(names: set<Name>, c: Counts, ms: seq<Method>, row: HotMethod)
    requires row in RowsOf(names, c, ms)
    ensures row.name in names && row == RowOf(row.name, c, ms)
  {
  }

  /** The order in which the hash maps hand their entries over cannot be seen in the result. */
  lemma RankingIsDetermined(a: seq<HotMethod>, b: seq<HotMethod>, c: Counts, ms: seq<Method>, includeWaiting: bool)
    requires IsRanking(a, c, ms, includeWaiting) && IsRanking(b, c, ms, includeWaiting)
    ensures a == b
  {
    hide RowsOf, RowNames, Before, Ranked, Elements, StrictTotalOrder;
    var names := RowNames(c, ms, includeWaiting);
    BeforeIsTotal(names, c, ms);
    RankingIsUnique(a, b, Before, RowsOf(names, c, ms));
  }

  // ----- The method

  /** `byName` holds what the addresses of `m` no longer in `rest` weigh, label by label. */
  ghost predicate Summed(m: map<u64, nat>, rest: map<u64, nat>, byName: map<Name, nat>, includeWaiting: bool, ms: seq<Method>) {
    && byName.Keys == Kept(Labels(m - rest.Keys, ms), includeWaiting)
    && (forall n | includeWaiting || !IsWaitFrame(n) ::
          CountAt(byName, n) + Weight(rest, ms, iset{n}) == Weight(m, ms, iset{n}))
  }

  lemma SumStep(m: map<u64, nat>, rest: map<u64, nat>, byName: map<Name, nat>, includeWaiting: bool, ms: seq<Method>,
                a: u64)
    requires Summed(m, rest, byName, includeWaiting, ms) && rest.Keys <= m.Keys && a in rest
    ensures var name := LabelFor(a, ms);
            Summed(m, rest - {a}, if !includeWaiting && IsWaitFrame(name) then byName else Bump(byName, name, rest[a]),
                   includeWaiting, ms)
  {
    hide LabelFor, IsWaitFrame, Weight, Labels;
    var name := LabelFor(a, ms);
    LabelsGrow(m, rest, a, ms);
    forall n
      ensures Weight(rest, ms, iset{n}) == (if n == name then rest[a] else 0) + Weight(rest - {a}, ms, iset{n})
    {
      WeightSplit(rest, a, ms, iset{n});
    }
  }

  lemma SumBegins(m: map<u64, nat>, includeWaiting: bool, ms: seq<Method>)
    ensures Summed(m, m, map[], includeWaiting, ms)
  {
    hide LabelFor, IsWaitFrame, Weight;
  }

  lemma SumEnds(m: map<u64, nat>, byName: map<Name, nat>, includeWaiting: bool, ms: seq<Method>)
    requires Summed(m, map[], byName, includeWaiting, ms)
    ensures byName.Keys == Kept(Labels(m, ms), includeWaiting)
    ensures forall n <- byName.Keys :: byName[n] == Weight(m, ms, iset{n})
  {
    hide LabelFor, IsWaitFrame, Weight;
    assert m - {} == m;
    forall n
      ensures Weight(map[], ms, iset{n}) == 0
    {
      EmptyWeighsNothing(ms, iset{n});
    }
  }

  /** What the table's lookup makes of an address. */
  method Label(table: MethodTable, address: u64) returns (name: Name)
    requires table.Valid() && table.sorted
    ensures name == LabelFor(address, table.methods)
  {
    hide Resolve, StableSort;
    var found := table.ResolveAddress(address);
    name := NameOf(found);
  }

  /** Fold per-address counts into per-label counts, leaving out and counting waiting labels if asked to. */
  method SumByName(m: map<u64, nat>, table: MethodTable, includeWaiting: bool)
    returns (byName: map<Name, nat>, waiting: nat)
    requires table.Valid() && table.sorted
    ensures byName.Keys == Kept(Labels(m, table.methods), includeWaiting)
    ensures forall n <- byName.Keys :: byName[n] == Weight(m, table.methods, iset{n})
    ensures waiting == if includeWaiting then 0 else Weight(m, table.methods, WaitNames())
  {
    hide LabelFor, IsWaitFrame, Weight, Summed, Labels, StableSort;
    ghost var ms := table.methods;
    byName, waiting := map[], 0;
    var rest := m;
    SumBegins(m, includeWaiting, ms);
    while rest != map[]
      invariant rest.Keys <= m.Keys
      invariant Summed(m, rest, byName, includeWaiting, ms)
      invariant !includeWaiting ==> waiting + Weight(rest, ms, WaitNames()) == Weight(m, ms, WaitNames())
      invariant includeWaiting ==> waiting == 0
      decreases |rest|
    {
      assert rest.Keys == {} ==> rest == map[];
      var a :| a in rest.Keys;
      var name := Label(table, a);
      SumStep(m, rest, byName, includeWaiting, ms, a);
      WeightSplit(rest, a, ms, WaitNames());
      if !includeWaiting && IsWaitFrame(name) {
        waiting := waiting + rest[a];
      } else {
        byName := Bump(byName, name, rest[a]);
      }
      rest := rest - {a};
    }
    EmptyWeighsNothing(ms, WaitNames());
    SumEnds(m, byName, includeWaiting, ms);
  }

  lemma EmptyWeighsNothing(ms: seq<Method>, names: iset<Name>)
    ensures Weight(map[], ms, names) == 0
  {
  }

  lemma LabelsGrow(m: map<u64, nat>, rest: map<u64, nat>, a: u64, ms: seq<Method>)
    requires rest.Keys <= m.Keys && a in rest
    ensures Labels(m - (rest - {a}).Keys, ms) == Labels(m - rest.Keys, ms) + {LabelFor(a, ms)}
  {
    hide LabelFor;
    assert (m - (rest - {a}).Keys).Keys == (m - rest.Keys).Keys + {a};
  }

  /** The sum of a label map's values. */
  method SumValues(byName: map<Name, nat>, ghost m: map<u64, nat>, ghost ms: seq<Method>) returns (sum: nat)
    requires forall n <- byName.Keys :: byName[n] == Weight(m, ms, iset{n})
    ensures sum == Weight(m, ms, NamesIn(byName.Keys))
  {
    hide LabelFor, Weight;
    sum := 0;
    var rest := byName.Keys;
    while rest != {}
      invariant rest <= byName.Keys
      invariant sum + Weight(m, ms, NamesIn(rest)) == Weight(m, ms, NamesIn(byName.Keys))
      decreases |rest|
    {
      var name :| name in rest;
      WeightUnion(m, ms, iset{name}, NamesIn(rest - {name}));
      assert NamesIn(rest) == iset{name} + NamesIn(rest - {name});
      sum := sum + byName[name];
      rest := rest - {name};
    }
    NoWeight(m, ms);
    assert NamesIn(rest) == iset{};
  }

  /** One row per label, in whatever order the labels come. */
  method BuildRows(names: set<Name>, selfByName: map<Name, nat>, totalByName: map<Name, nat>, usable: nat,
                   ghost c: Counts, ghost ms: seq<Method>)
    returns (rows: seq<HotMethod>)
    requires usable == UsableSamples(c)
    requires forall n <- names :: CountAt(selfByName, n) == Weight(c.selfCounts, ms, iset{n})
    requires forall n <- names :: CountAt(totalByName, n) == Weight(c.totalCounts, ms, iset{n})
    ensures Elements(rows) == RowsOf(names, c, ms) && Distinct(rows)
  {
    hide LabelFor, Weight, UsableSamples, Percent;
    rows := [];
    var rest := names;
    while rest != {}
      invariant rest <= names
      invariant Elements(rows) == RowsOf(names - rest, c, ms) && Distinct(rows)
      decreases |rest|
    {
      var name :| name in rest;
      var self, total := CountAt(selfByName, name), CountAt(totalByName, name);
      var row := HotMethod(name, self, total, Percent(self, usable), Percent(total, usable));
      AppendRow(rows, row, names - rest, name, c, ms);
      assert names - rest + {name} == names - (rest - {name});
      rows := rows + [row];
      rest := rest - {name};
    }
  }

  lemma AppendRow(rows: seq<HotMethod>, row: HotMethod, done: set<Name>, name: Name, c: Counts, ms: seq<Method>)
    requires Elements(rows) == RowsOf(done, c, ms) && Distinct(rows)
    requires name !in done && row == RowOf(name, c, ms)
    ensures Elements(rows + [row]) == RowsOf(done + {name}, c, ms) && Distinct(rows + [row])
  {
    hide Weight, UsableSamples, Percent;
    var more := rows + [row];
    assert row !in RowsOf(done, c, ms);
    forall r
      ensures r in Elements(more) <==> r in RowsOf(done + {name}, c, ms)
    {
      assert r in Elements(more) <==> r == row || r in Elements(rows);
      assert r in RowsOf(done + {name}, c, ms) <==> r == row || r in RowsOf(done, c, ms);
    }
    forall i, j | 0 <= i < j < |more|
      ensures more[i] != more[j]
    {
      if j == |rows| { assert more[i] in Elements(rows); }
    }
  }

  lemma LabelsOfCounts(m: map<u64, nat>, ms: seq<Method>, name: Name)
    requires name !in Labels(m, ms)
    ensures Weight(m, ms, iset{name}) == 0
  {
    hide LabelFor;
    WeightAgrees(m, ms, iset{name}, iset{}) by {
      forall address <- m.Keys
        ensures LabelFor(address, ms) != name
      {
        assert LabelFor(address, ms) in Labels(m, ms);
      }
    }
    NoWeight(m, ms);
  }

  /** The whole of what `hot_methods` may return. */
  ghost predicate IsHotProfile(hot: HotProfile, c: Counts, ms: seq<Method>, limit: nat, includeWaiting: bool) {
    && (exists ranking :: IsRanking(ranking, c, ms, includeWaiting) && hot.rows == Truncate(ranking, limit))
    && hot.workingSamples == Weight(c.selfCounts, ms, ShownNames(includeWaiting))
    && hot.waitingSamples == if includeWaiting then 0 else Weight(c.selfCounts, ms, WaitNames())
  }

  /** The label counts of both maps, a row for every label in either, sorted and cut to the limit. */
  method Rank(state: ProfileState, table: MethodTable, limit: nat, includeWaiting: bool) returns (hot: HotProfile)
    requires table.Valid() && table.sorted
    ensures IsHotProfile(hot, state.Value(), StableSort(table.inserted), limit, includeWaiting)
  {
    hide LabelFor, Weight, UsableSamples, StableSort, IsWaitFrame, RowOf;
    ghost var c := state.Value();
    ghost var ms := table.methods;
    var selfByName, waiting := SumByName(state.selfCounts, table, includeWaiting);
    var totalByName, _ := SumByName(state.totalCounts, table, includeWaiting);
    var working := SumValues(selfByName, c.selfCounts, ms);
    var usable := state.Usable();
    var names := selfByName.Keys + totalByName.Keys;
    forall n <- names
      ensures CountAt(selfByName, n) == Weight(c.selfCounts, ms, iset{n})
      ensures CountAt(totalByName, n) == Weight(c.totalCounts, ms, iset{n})
    {
      if n !in selfByName { LabelsOfCounts(c.selfCounts, ms, n); }
      if n !in totalByName { LabelsOfCounts(c.totalCounts, ms, n); }
    }
    var rows := BuildRows(names, selfByName, totalByName, usable, c, ms);
    assert names == RowNames(c, ms, includeWaiting);
    BeforeIsTotal(names, c, ms);
    SortByRanks(rows, Before, RowsOf(names, c, ms));
    var ranking := SortBy(rows, Before);
    assert IsRanking(ranking, c, ms, includeWaiting);
    WorkingIsShown(c.selfCounts, ms, includeWaiting, selfByName.Keys);
    hot := HotProfile(Truncate(ranking, limit), working, waiting);
  }

  lemma WorkingIsShown(m: map<u64, nat>, ms: seq<Method>, includeWaiting: bool, names: set<Name>)
    requires names == Kept(Labels(m, ms), includeWaiting)
    ensures Weight(m, ms, NamesIn(names)) == Weight(m, ms, ShownNames(includeWaiting))
  {
    hide LabelFor, Weight, IsWaitFrame;
    forall address <- m.Keys
      ensures LabelFor(address, ms) in names <==> LabelFor(address, ms) in ShownNames(includeWaiting)
    {
      assert LabelFor(address, ms) in Labels(m, ms);
    }
    WeightAgrees(m, ms, NamesIn(names), ShownNames(includeWaiting));
  }

  // ----- The order shown

  /** At most as hot: fewer self samples, then fewer samples in all, then a later name. */
  ghost predicate NoHotter(a: HotMethod, b: HotMethod) {
    && a.selfSamples <= b.selfSamples
    && (a.selfSamples == b.selfSamples ==> a.totalSamples <= b.totalSamples)
    && (a.selfSamples == b.selfSamples && a.totalSamples == b.totalSamples ==> Precedes(b.name, a.name))
  }

  lemma BehindIsNoHotter(a: HotMethod, b: HotMethod)
    requires Before(a, b)
    ensures NoHotter(b, a)
  {
    NameLessExactly(a.name, b.name);
  }

  lemma RankedByHeat(ranking: seq<HotMethod>, i: nat, j: nat)
    requires Ranked(ranking, Before) && i < j < |ranking|
    ensures NoHotter(ranking[j], ranking[i])
  {
    hide Before, NoHotter;
    BehindIsNoHotter(ranking[i], ranking[j]);
  }

  lemma ShownIsRanked(ranking: seq<HotMethod>, name: Name, c: Counts, ms: seq<Method>, includeWaiting: bool) returns (j: nat)
    requires IsRanking(ranking, c, ms, includeWaiting) && name in RowNames(c, ms, includeWaiting)
    ensures j < |ranking| && ranking[j] == RowOf(name, c, ms)
  {
    hide RowOf, RowNames, Before, Ranked;
    assert RowOf(name, c, ms) in Elements(ranking);
    j :| 0 <= j < |ranking| && ranking[j] == RowOf(name, c, ms);
  }

  /** What is cut off a ranking is no hotter than what is kept, and what is kept is in order. */
  lemma CutIsNoHotter(ranking: seq<HotMethod>, limit: nat)
    requires Ranked(ranking, Before)
    ensures var rows := Truncate(ranking, limit);
            && (forall i, j | 0 <= i < j < |rows| :: NoHotter(rows[j], rows[i]))
            && (forall j | 0 <= j < |ranking| ::
                  ranking[j] in rows || (|rows| == limit && forall row <- rows :: NoHotter(ranking[j], row)))
  {
    hide Ranked, NoHotter;
    var rows := Truncate(ranking, limit);
    forall i, j | 0 <= i < |rows| && i < j < |ranking|
      ensures NoHotter(ranking[j], ranking[i])
    {
      RankedByHeat(ranking, i, j);
    }
    forall j | 0 <= j < |ranking|
      ensures ranking[j] in rows || (|rows| == limit && forall row <- rows :: NoHotter(ranking[j], row))
    {
      if j < |rows| {
        assert rows[j] == ranking[j];
      }
    }
  }

  lemma RankingIsRanked(ranking: seq<HotMethod>, c: Counts, ms: seq<Method>, includeWaiting: bool)
    requires IsRanking(ranking, c, ms, includeWaiting)
    ensures Ranked(ranking, Before)
  {
    hide RowsOf, RowNames, Before, Ranked;
  }

  lemma RankingBehind(hot: HotProfile, c: Counts, ms: seq<Method>, limit: nat, includeWaiting: bool)
    returns (ranking: seq<HotMethod>)
    requires IsHotProfile(hot, c, ms, limit, includeWaiting)
    ensures IsRanking(ranking, c, ms, includeWaiting) && hot.rows == Truncate(ranking, limit)
  {
    hide IsRanking, Weight, WaitNames, ShownNames;
    ranking :| IsRanking(ranking, c, ms, includeWaiting) && hot.rows == Truncate(ranking, limit);
  }

  /** The hottest rows come first, and no label left out by the limit is hotter than a row shown. */
  lemma HottestFirst(hot: HotProfile, c: Counts, ms: seq<Method>, limit: nat, includeWaiting: bool)
    requires IsHotProfile(hot, c, ms, limit, includeWaiting)
    ensures forall i, j | 0 <= i < j < |hot.rows| :: NoHotter(hot.rows[j], hot.rows[i])
    ensures |hot.rows| <= limit
    ensures forall name <- RowNames(c, ms, includeWaiting) ::
              RowOf(name, c, ms) in hot.rows
              || (|hot.rows| == limit && forall row <- hot.rows :: NoHotter(RowOf(name, c, ms), row))
  {
    hide IsHotProfile, IsRanking, RowOf, RowNames, Before, NoHotter, Ranked;
    var ranking := RankingBehind(hot, c, ms, limit, includeWaiting);
    RankingIsRanked(ranking, c, ms, includeWaiting);
    CutIsNoHotter(ranking, limit);
    forall name | name in RowNames(c, ms, includeWaiting)
      ensures RowOf(name, c, ms) in hot.rows
           || (|hot.rows| == limit && forall row <- hot.rows :: NoHotter(RowOf(name, c, ms), row))
    {
      var j := ShownIsRanked(ranking, name, c, ms, includeWaiting);
    }
  }

  // ----- What the result means

  /**
   A row's numbers in terms of the stacks sampled: leaves, and distinct addresses summed over stacks. The total share
   is at most 100% exactly if the stacks without the label make up for its extra addresses on the others; where no
   stack holds two addresses with it there are none.
   */
  lemma RowIsExact(log: seq<Sample>, ms: seq<Method>, name: Name)
    ensures var row := RowOf(name, RecordAll(NO_COUNTS, log), ms);
            && row.selfSamples == HowMany(log, LeafIn(ms, iset{name}))
            && row.totalSamples == AppearancesIn(log, ms, iset{name})
            && row.selfSamples <= row.totalSamples
            && row.selfPercent * AtLeastOne(HowMany(log, Usable)) == row.selfSamples as real * 100.0
            && row.totalPercent * AtLeastOne(HowMany(log, Usable)) == row.totalSamples as real * 100.0
            && 0.0 <= row.selfPercent <= 100.0
            && 0.0 <= row.totalPercent
            && (row.totalPercent <= 100.0 <==> Extra(log, ms, name) <= HowMany(log, OffStack(ms, name)))
            && (OneAddressPerStack(log, ms, name) ==> row.totalSamples <= HowMany(log, Usable))
            && (OneAddressPerStack(log, ms, name) ==> row.totalPercent <= 100.0)
  {
    hide LabelFor, Weight, RecordAll, HowMany, AppearancesIn, LeafIn, Percent, UsableSamples, Extra, OffStack, AtLeastOne;
    PercentIsShare(HowMany(log, LeafIn(ms, iset{name})), HowMany(log, Usable));
    PercentIsShare(AppearancesIn(log, ms, iset{name}), HowMany(log, Usable));
    var names := iset{name};
    WeightsAreExact(log, ms, names);
    LabelSelfAtMostTotal(log, ms, names);
    EverySampleCounted(log);
    LeavesAreUsable(log, ms, names);
    PercentInRange(HowMany(log, LeafIn(ms, names)), HowMany(log, Usable));
    TotalFitsExactly(log, ms, name);
    PercentInRange(AppearancesIn(log, ms, names), HowMany(log, Usable));
    if OneAddressPerStack(log, ms, name) {
      LabelTotalAtMostUsable(log, ms, name);
    }
  }

  /** It can be more: one sample, two frames of native code. */
  lemma TotalCanExceedAll()
    ensures RowOf(NativeLabel(), RecordAll(NO_COUNTS, [Found([1, 2])]), []).totalPercent == 200.0
  {
    hide RecordAll, UsableSamples, Weight, Text, Extra, OffStack, LeafIn;
    var log := [Found([1, 2])];
    assert log[..0] == [];
    RowIsExact(log, [], NativeLabel());
    EverySampleCounted(log);
    assert AddressesIn([1, 2], [], iset{NativeLabel()}) == {1, 2};
  }

  lemma {:induction false} LeavesAreUsable(log: seq<Sample>, ms: seq<Method>, names: iset<Name>)
    ensures HowMany(log, LeafIn(ms, names)) <= HowMany(log, Usable)
  {
    hide LabelFor;
    if log == [] {
    } else {
      LeavesAreUsable(log[..|log| - 1], ms, names);
    }
  }

  function AtLeastOne(n: nat): real {
    if n == 0 then 1.0 else n as real
  }

  lemma PercentIsShare(part: nat, whole: nat)
    ensures Percent(part, whole) * AtLeastOne(whole) == part as real * 100.0
  {
    var d := AtLeastOne(whole);
    assert part as real / d * d == part as real;
  }

  lemma PercentInRange(part: nat, whole: nat)
    requires whole == 0 ==> part == 0
    ensures 0.0 <= Percent(part, whole)
    ensures Percent(part, whole) <= 100.0 <==> part <= whole
  {
    if whole >= 1 {
      var q := part as real / whole as real;
      assert q * whole as real == part as real;
      assert (1.0 - q) * whole as real == whole as real - part as real;
      SignExactly(q, whole as real);
      SignExactly(1.0 - q, whole as real);
    }
  }

  lemma SignExactly(x: real, y: real)
    requires y > 0.0
    ensures x * y >= 0.0 <==> x >= 0.0
  {
  }

  /** Working and waiting samples together are the usable ones, shown or not. */
  lemma WorkingAndWaiting(log: seq<Sample>, ms: seq<Method>, limit: nat, includeWaiting: bool, hot: HotProfile)
    requires IsHotProfile(hot, RecordAll(NO_COUNTS, log), ms, limit, includeWaiting)
    ensures hot.workingSamples + hot.waitingSamples == UsableSamples(RecordAll(NO_COUNTS, log))
  {
    hide LabelFor, Weight, RecordAll, HowMany, LeafIn, UsableSamples, IsWaitFrame, IsRanking;
    var m := RecordAll(NO_COUNTS, log).selfCounts;
    WeightUnion(m, ms, ShownNames(false), WaitNames());
    assert ShownNames(false) + WaitNames() == Anything();
    assert ShownNames(true) == Anything();
    WeightsAreExact(log, ms, Anything());
    AllLeaves(log, ms);
    EverySampleCounted(log);
  }

  /** Hiding parked threads commutes with ranking: the rows left are the same rows, in the same order. */
  lemma HidingCommutes(all: seq<HotMethod>, shown: seq<HotMethod>, c: Counts, ms: seq<Method>)
    requires IsRanking(all, c, ms, true) && IsRanking(shown, c, ms, false)
    ensures shown == Filter(all, (row: HotMethod) => !IsWaitFrame(row.name))
  {
    hide LabelFor, IsWaitFrame, RowOf, Labels;
    var kept := Filter(all, (row: HotMethod) => !IsWaitFrame(row.name));
    FilterStaysRanked(all, (row: HotMethod) => !IsWaitFrame(row.name), Before);
    var names := RowNames(c, ms, true);
    forall row
      ensures row in Elements(kept) <==> row in RowsOf(RowNames(c, ms, false), c, ms)
    {
      RowNamed(RowNames(c, ms, false), c, ms, row);
      RowNamed(names, c, ms, row);
      assert row in Elements(kept) <==> row in Elements(all) && !IsWaitFrame(row.name);
    }
    RankingIsDetermined(kept, shown, c, ms, false);
  }

  lemma RowNamed(names: set<Name>, c: Counts, ms: seq<Method>, row: HotMethod)
    ensures row in RowsOf(names, c, ms) <==> row.name in names && row == RowOf(row.name, c, ms)
  {
    hide Weight, UsableSamples, Percent;
  }

  function SumSelf(rows: seq<HotMethod>): nat {
    if rows == [] then 0 else rows[0].selfSamples + SumSelf(rows[1..])
  }

  lemma {:induction false} SumSelfIsWeight(rows: seq<HotMethod>, c: Counts, ms: seq<Method>)
    requires Distinct(rows)
    requires forall row <- rows :: row == RowOf(row.name, c, ms)
    ensures SumSelf(rows) == Weight(c.selfCounts, ms, NamesOf(rows))
  {
    hide LabelFor, Weight, UsableSamples, Percent;
    if rows == [] {
      NoWeight(c.selfCounts, ms);
      assert NamesOf(rows) == iset{};
    } else {
      var first, rest := rows[0], rows[1..];
      SumSelfIsWeight(rest, c, ms);
      var names := NamesOf(rest);
      assert first.name !in names by {
        assert forall row <- rest :: row.name == first.name ==> row == first;
      }
      assert rows == [first] + rest;
      assert NamesOf(rows) == iset{first.name} + names;
      WeightUnion(c.selfCounts, ms, iset{first.name}, names);
    }
  }

  /** The waiting samples reported are the self samples of the rows that hiding removed. */
  lemma WaitingIsRemoved(all: seq<HotMethod>, c: Counts, ms: seq<Method>)
    requires IsRanking(all, c, ms, true)
    ensures Weight(c.selfCounts, ms, WaitNames()) == SumSelf(Filter(all, (row: HotMethod) => IsWaitFrame(row.name)))
  {
    hide LabelFor, IsWaitFrame, RowOf, Weight;
    var removed := Filter(all, (row: HotMethod) => IsWaitFrame(row.name));
    var names := RowNames(c, ms, true);
    FilterStaysRanked(all, (row: HotMethod) => IsWaitFrame(row.name), Before);
    BeforeIsTotal(names, c, ms);
    forall row <- removed
      ensures row == RowOf(row.name, c, ms) && row in RowsOf(names, c, ms)
    {
      assert row in Elements(all);
      RowNamed(names, c, ms, row);
    }
    RankedIsDistinct(removed, Before, RowsOf(names, c, ms));
    SumSelfIsWeight(removed, c, ms);
    forall address <- c.selfCounts.Keys
      ensures LabelFor(address, ms) in WaitNames() <==> LabelFor(address, ms) in NamesOf(removed)
    {
      var name := LabelFor(address, ms);
      assert name in Labels(c.selfCounts, ms);
      if IsWaitFrame(name) {
        var row := RowOf(name, c, ms);
        RowKeepsName(name, c, ms);
        RowNamed(names, c, ms, row);
        assert row in Elements(all);
        assert row in removed;
      }
    }
    WeightAgrees(c.selfCounts, ms, WaitNames(), NamesOf(removed));
  }

  lemma RowKeepsName(name: Name, c: Counts, ms: seq<Method>)
    ensures RowOf(name, c, ms).name == name
  {
  }
}
