/**
 Stacked plots (src/ui/graph.rs): bands of readings drawn one on top of the other. A cell is coloured by the band that
 owns the highest sub-row filled in it.
 */
module Stacks {
  import opened Wire
  import opened Graphs

  /** Bands bottom first, each oldest reading first. */
  datatype Stacked = Stacked(bands: seq<seq<Reading>>, max: real, plot: Plot)

  // ----- Specification

  /** The conversion to a 64-bit count saturates. */
  function BandHeight(st: Stacked, value: Reading, subRows: nat): (h: nat)
    requires st.max > 0.0
    ensures h < TWO_64
    ensures h > 0 <==> value.Finite? && value.v > 0.0
  {
    if value.NotFinite? || value.v <= 0.0 then 0
    else
      var scaled := Rounded(Scaled(value.v, st.max, subRows));
      if scaled < 1 then 1 else if scaled >= TWO_64 then TWO_64 - 1 else scaled
  }

  /** One band on top of what is below it; the sum keeps 64 bits. */
  function TopOf(below: nat, height: nat, subRows: nat): (top: nat)
    ensures top <= subRows
  {
    Least((below + height) % TWO_64, subRows)
  }

  /** The height a band adds in a column, or nothing where its history does not reach. */
  function HeightIn(st: Stacked, band: nat, columns: nat, subRows: nat, column: nat): Option<nat>
    requires st.max > 0.0 && band < |st.bands| && column < columns
  {
    var values, age := st.bands[band], columns - 1 - column;
    if age < |values| then Some(BandHeight(st, values[|values| - 1 - age], subRows)) else None
  }

  /** Where each of the first `n` bands ends in a column. */
  function TopsIn(st: Stacked, n: nat, columns: nat, subRows: nat, column: nat): (tops: seq<nat>)
    requires st.max > 0.0 && n <= |st.bands| && column < columns
    ensures |tops| == n && forall i | 0 <= i < n :: tops[i] <= subRows
  {
    if n == 0 then []
    else
      var lower := TopsIn(st, n - 1, columns, subRows, column);
      match HeightIn(st, n - 1, columns, subRows, column)
      case Some(height) => lower + [TopOf(if n == 1 then 0 else lower[n - 2], height, subRows)]
      case None => lower + [0]
  }

  function Total(tops: seq<nat>): nat {
    if tops == [] then 0 else tops[|tops| - 1]
  }

  function FirstReaching(tops: seq<nat>, height: nat): nat {
    if tops == [] then 0 else if height <= tops[0] then 0 else 1 + FirstReaching(tops[1..], height)
  }

  function Owner(tops: seq<nat>, height: nat): (band: nat)
    requires tops != []
    ensures band < |tops|
  {
    var first := FirstReaching(tops, height);
    if first < |tops| then first else |tops| - 1
  }

  function Totals(tops: seq<seq<nat>>): (totals: seq<nat>)
    ensures |totals| == |tops| && forall c | 0 <= c < |tops| :: totals[c] == Total(tops[c])
  {
    seq(|tops|, c requires 0 <= c < |tops| => Total(tops[c]))
  }

  /** The first place filled, top row first and left column first; the number of places where none is. */
  function FirstLit(bits: seq<bool>): (i: nat)
    ensures i <= |bits|
  {
    if bits == [] || bits[0] then 0 else 1 + FirstLit(bits[1..])
  }

  lemma {:induction false} FirstLitAppend(bits: seq<bool>, b: bool)
    ensures FirstLit(bits + [b])
         == if FirstLit(bits) < |bits| then FirstLit(bits) else if b then |bits| else |bits| + 1
  {
    if bits == [] {
      assert [b][1..] == [];
    } else {
      assert (bits + [b])[1..] == bits[1..] + [b];
      FirstLitAppend(bits[1..], b);
    }
  }

  /** The height the dots of a cell reach and the band that owns it, judged by the first place filled. */
  function Peak(plot: Plot, tops: seq<seq<nat>>, subRows: nat, cellX: nat, cellY: nat, first: nat): (int, nat)
    requires 2 * cellX + 1 < |tops| && tops[2 * cellX] != [] && tops[2 * cellX + 1] != []
  {
    var height := FromBottom(plot, subRows, cellY, first / 2);
    (height, if height < 0 then 0 else Owner(tops[2 * cellX + first % 2], height))
  }

  /** The band to colour a cell by. */
  function OwnerIn(plot: Plot, tops: seq<seq<nat>>, subRows: nat, cellX: nat, cellY: nat): nat
    requires (cellX + 1) * SamplesPerCell(plot) <= |tops| && (cellY + 1) * RowsPerCell(plot) <= subRows
    requires forall c | 0 <= c < |tops| :: tops[c] != []
  {
    if plot == Block then
      var base := subRows - (cellY + 1) * 8;
      Owner(tops[cellX], base + EighthsIn(Total(tops[cellX]), subRows, cellY))
    else
      Peak(plot, tops, subRows, cellX, cellY, FirstLit(DotBits(plot, Totals(tops), subRows, cellX, cellY))).1
  }

  // ----- Rendering

  method OwnerFor(tops: seq<nat>, height: nat) returns (band: nat)
    requires tops != []
    ensures band == Owner(tops, height)
  {
    band := 0;
    while band < |tops| && height > tops[band]
      invariant band <= |tops|
      invariant FirstReaching(tops, height) == band + FirstReaching(tops[band..], height)
    {
      assert tops[band..][1..] == tops[band + 1..];
      band := band + 1;
    }
    if band == |tops| {
      assert tops[band..] == [];
      band := |tops| - 1;
    }
  }

  /** What a cell shows and whose colour it takes. */
  method CellFor(plot: Plot, tops: seq<seq<nat>>, subRows: nat, cellX: nat, cellY: nat)
    returns (symbol: Option<Glyph>, owner: nat)
    requires (cellX + 1) * SamplesPerCell(plot) <= |tops| && (cellY + 1) * RowsPerCell(plot) <= subRows
    requires forall c | 0 <= c < |tops| :: tops[c] != []
    ensures symbol == Symbol(plot, Totals(tops), subRows, cellX, cellY)
    ensures symbol.Some? ==> owner == OwnerIn(plot, tops, subRows, cellX, cellY)
  {
    if plot == Block {
      var base := subRows - (cellY + 1) * 8;
      var total := Total(tops[cellX]);
      var above := if total > base then total - base else 0;
      var eighths := if above < 8 then above else 8;
      if eighths == 0 {
        return None, 0;
      }
      owner := OwnerFor(tops[cellX], base + eighths);
      return Some(Eighth(eighths)), owner;
    }
    var pattern: nat;
    pattern, owner := DotsFor(plot, tops, subRows, cellX, cellY);
    return if pattern == 0 then None else Some(Dots(plot, pattern)), owner;
  }

  /** After `i` places: nothing filled yet, or the first place filled decided. */
  ghost predicate Decided(plot: Plot, tops: seq<seq<nat>>, subRows: nat, cellX: nat, cellY: nat, bits: seq<bool>,
                          highest: nat, owner: nat)
    requires 2 * cellX + 1 < |tops| && tops[2 * cellX] != [] && tops[2 * cellX + 1] != []
  {
    if FirstLit(bits) == |bits| then highest == 0
    else (highest, owner) == Peak(plot, tops, subRows, cellX, cellY, FirstLit(bits))
  }

  /** What the loop over the places of a cell has, `i` places in. */
  ghost predicate DotsSoFar(plot: Plot, tops: seq<seq<nat>>, subRows: nat, cellX: nat, cellY: nat, i: nat,
                            pattern: nat, highest: nat, owner: nat)
    requires 2 * cellX + 1 < |tops| && tops[2 * cellX] != [] && tops[2 * cellX + 1] != [] && i <= 8
  {
    var bits := DotBits(plot, Totals(tops), subRows, cellX, cellY)[..i];
    pattern == Pattern(bits) && Decided(plot, tops, subRows, cellX, cellY, bits, highest, owner)
  }

  method DotStep(plot: Plot, tops: seq<seq<nat>>, subRows: nat, cellX: nat, cellY: nat, row: nat, offset: nat,
                 pattern: nat, highest: nat, owner: nat)
    returns (pattern': nat, highest': nat, owner': nat)
    requires plot != Block && row < 4 && offset < 2
    requires 2 * cellX + 1 < |tops| && (cellY + 1) * 4 <= subRows
    requires tops[2 * cellX] != [] && tops[2 * cellX + 1] != []
    requires DotsSoFar(plot, tops, subRows, cellX, cellY, 2 * row + offset, pattern, highest, owner)
    ensures DotsSoFar(plot, tops, subRows, cellX, cellY, 2 * row + offset + 1, pattern', highest', owner')
  {
    hide Pattern, FirstLit, Owner, Pow2, Total;
    ghost var i := 2 * row + offset;
    ghost var bits := DotBits(plot, Totals(tops), subRows, cellX, cellY);
    AddBit(bits, i);
    assert bits[..i + 1] == bits[..i] + [bits[i]];
    FirstLitAppend(bits[..i], bits[i]);
    pattern', highest', owner' := pattern, highest, owner;
    var fromBottom := subRows - (cellY * 4 + row);
    var column := cellX * 2 + offset;
    assert i / 2 == row && i % 2 == offset;
    if Total(tops[column]) >= fromBottom {
      pattern' := pattern + Pow2(row * 2 + offset);
      if fromBottom > highest {
        highest' := fromBottom;
        owner' := OwnerFor(tops[column], fromBottom);
      }
    }
  }

  method DotsFor(plot: Plot, tops: seq<seq<nat>>, subRows: nat, cellX: nat, cellY: nat)
    returns (pattern: nat, owner: nat)
    requires plot != Block
    requires 2 * cellX + 1 < |tops| && (cellY + 1) * 4 <= subRows
    requires forall c | 0 <= c < |tops| :: tops[c] != []
    ensures pattern == Pattern(DotBits(plot, Totals(tops), subRows, cellX, cellY))
    ensures pattern > 0 ==> owner == OwnerIn(plot, tops, subRows, cellX, cellY)
  {
    hide DotsSoFar;
    var highest: nat := 0;
    pattern, owner := 0, 0;
    NothingLit(plot, tops, subRows, cellX, cellY);
    for row := 0 to 4
      invariant DotsSoFar(plot, tops, subRows, cellX, cellY, 2 * row, pattern, highest, owner)
    {
      for offset := 0 to 2
        invariant DotsSoFar(plot, tops, subRows, cellX, cellY, 2 * row + offset, pattern, highest, owner)
      {
        pattern, highest, owner := DotStep(plot, tops, subRows, cellX, cellY, row, offset, pattern, highest, owner);
      }
    }
    AllPlacesSeen(plot, tops, subRows, cellX, cellY, pattern, highest, owner);
  }

  lemma NothingLit(plot: Plot, tops: seq<seq<nat>>, subRows: nat, cellX: nat, cellY: nat)
    requires 2 * cellX + 1 < |tops| && tops[2 * cellX] != [] && tops[2 * cellX + 1] != []
    ensures DotsSoFar(plot, tops, subRows, cellX, cellY, 0, 0, 0, 0)
  {
    assert DotBits(plot, Totals(tops), subRows, cellX, cellY)[..0] == [];
  }

  lemma AllPlacesSeen(plot: Plot, tops: seq<seq<nat>>, subRows: nat, cellX: nat, cellY: nat,
                      pattern: nat, highest: nat, owner: nat)
    requires plot != Block && 2 * cellX + 1 < |tops| && (cellY + 1) * 4 <= subRows
    requires forall c | 0 <= c < |tops| :: tops[c] != []
    requires DotsSoFar(plot, tops, subRows, cellX, cellY, 8, pattern, highest, owner)
    ensures pattern == Pattern(DotBits(plot, Totals(tops), subRows, cellX, cellY))
    ensures pattern > 0 ==> owner == OwnerIn(plot, tops, subRows, cellX, cellY)
  {
    hide Pattern, FirstLit, Owner;
    var bits := DotBits(plot, Totals(tops), subRows, cellX, cellY);
    assert bits[..8] == bits;
    SomethingLit(bits);
  }

  lemma {:induction false} SomethingLit(bits: seq<bool>)
    ensures Pattern(bits) == 0 <==> FirstLit(bits) == |bits|
    ensures FirstLit(bits) < |bits| ==> bits[FirstLit(bits)]
    ensures forall i | 0 <= i < FirstLit(bits) :: !bits[i]
  {
    if bits == [] {
    } else {
      SomethingLit(bits[1..]);
    }
  }

  function AllTops(st: Stacked, columns: nat, subRows: nat): (tops: seq<seq<nat>>)
    requires st.max > 0.0 && st.bands != []
    ensures |tops| == columns && forall c | 0 <= c < columns :: tops[c] != []
    ensures forall c | 0 <= c < columns :: tops[c] == TopsIn(st, |st.bands|, columns, subRows, c)
  {
    seq(columns, c requires 0 <= c < columns => TopsIn(st, |st.bands|, columns, subRows, c))
  }

  function Zeros(n: nat): (zs: seq<nat>)
    ensures |zs| == n && forall i | 0 <= i < n :: zs[i] == 0
  {
    seq(n, _ => 0)
  }

  method BandHeightFor(st: Stacked, value: Reading, subRows: nat) returns (h: nat)
    requires st.max > 0.0
    ensures h == BandHeight(st, value, subRows)
  {
    if value.Finite? && value.v > 0.0 {
      var scaled := Rounded(Scaled(value.v, st.max, subRows));
      var kept: nat := if scaled < 0 then 0 else if scaled >= TWO_64 then TWO_64 - 1 else scaled;
      return if kept < 1 then 1 else kept;
    }
    return 0;
  }

  /** The tops of the first `n` bands stand, the others are still zero. */
  ghost predicate PartlyStacked(st: Stacked, n: nat, columns: nat, subRows: nat, tops: seq<seq<nat>>)
    requires st.max > 0.0 && n <= |st.bands|
  {
    |tops| == columns
    && forall c | 0 <= c < columns :: tops[c] == TopsIn(st, n, columns, subRows, c) + Zeros(|st.bands| - n)
  }

  method TopsOf(st: Stacked, columns: nat, subRows: nat) returns (tops: array<seq<nat>>)
    requires st.max > 0.0 && st.bands != []
    ensures fresh(tops) && tops[..] == AllTops(st, columns, subRows)
  {
    hide PartlyStacked, AllTops;
    var bands := |st.bands|;
    tops := new seq<nat>[columns](_ => Zeros(bands));
    NoBands(st, columns, subRows, tops[..]);
    for index := 0 to bands
      invariant fresh(tops) && tops.Length == columns
      invariant PartlyStacked(st, index, columns, subRows, tops[..])
    {
      StackBand(st, index, columns, subRows, tops);
    }
    AllBands(st, columns, subRows, tops[..]);
  }

  lemma NoBands(st: Stacked, columns: nat, subRows: nat, tops: seq<seq<nat>>)
    requires st.max > 0.0 && |tops| == columns && forall c | 0 <= c < columns :: tops[c] == Zeros(|st.bands|)
    ensures PartlyStacked(st, 0, columns, subRows, tops)
  {
  }

  lemma AllBands(st: Stacked, columns: nat, subRows: nat, tops: seq<seq<nat>>)
    requires st.max > 0.0 && st.bands != [] && PartlyStacked(st, |st.bands|, columns, subRows, tops)
    ensures tops == AllTops(st, columns, subRows)
  {
    hide TopsIn;
    assert Zeros(0) == [];
    forall c | 0 <= c < columns
      ensures tops[c] == TopsIn(st, |st.bands|, columns, subRows, c)
    {
      assert tops[c] == TopsIn(st, |st.bands|, columns, subRows, c) + Zeros(0);
    }
  }

  /** One band over all columns its history reaches. */
  method StackBand(st: Stacked, index: nat, columns: nat, subRows: nat, tops: array<seq<nat>>)
    requires st.max > 0.0 && index < |st.bands| && tops.Length == columns
    requires PartlyStacked(st, index, columns, subRows, tops[..])
    modifies tops
    ensures PartlyStacked(st, index + 1, columns, subRows, tops[..])
  {
    hide TopsIn, TopOf, BandHeight;
    var values := st.bands[index];
    var recent := values[if |values| > columns then |values| - columns else 0..];
    var offset := columns - |recent|;
    forall c | 0 <= c < offset
      ensures tops[c] == TopsIn(st, index + 1, columns, subRows, c) + Zeros(|st.bands| - index - 1)
    {
      OneMoreBand(st, index, columns, subRows, c);
      assert Zeros(|st.bands| - index) == [0] + Zeros(|st.bands| - index - 1);
    }
    for position := 0 to |recent|
      invariant forall c | 0 <= c < offset + position ::
                  tops[c] == TopsIn(st, index + 1, columns, subRows, c) + Zeros(|st.bands| - index - 1)
      invariant forall c | offset + position <= c < columns ::
                  tops[c] == TopsIn(st, index, columns, subRows, c) + Zeros(|st.bands| - index)
    {
      var c := offset + position;
      var below := if index == 0 then 0 else tops[c][index - 1];
      var height := BandHeightFor(st, recent[position], subRows);
      OneMoreBand(st, index, columns, subRows, c);
      tops[c] := tops[c][index := TopOf(below, height, subRows)];
      assert tops[c] == TopsIn(st, index + 1, columns, subRows, c) + Zeros(|st.bands| - index - 1);
    }
  }

  lemma OneMoreBand(st: Stacked, n: nat, columns: nat, subRows: nat, c: nat)
    requires st.max > 0.0 && n < |st.bands| && c < columns
    ensures var lower := TopsIn(st, n, columns, subRows, c);
            TopsIn(st, n + 1, columns, subRows, c)
            == lower + [match HeightIn(st, n, columns, subRows, c)
                        case Some(height) => TopOf(if n == 0 then 0 else lower[n - 1], height, subRows)
                        case None => 0]
  {
  }

  function Shown(st: Stacked, area: Area): Picture {
    (x: int, y: int) =>
      if 0 <= x < area.width && 0 <= y < area.height && st.max > 0.0 && st.bands != [] then
        PlotFits(st.plot, area, x, y);
        var subRows := SubRows(st.plot, area.height);
        var tops := AllTops(st, Capacity(st.plot, area.width), subRows);
        match Symbol(st.plot, Totals(tops), subRows, x, y)
        case Some(glyph) => Some(Cell(glyph, Solid(OwnerIn(st.plot, tops, subRows, x, y))))
        case None => None
      else None
  }

  /** What drawing bands must leave of a buffer: glyphs in their owner's colour where something is filled, and the rest. */
  twostate predicate BandsDrawn(st: Stacked, buf: array2<Cell>, area: Area)
    requires st.max > 0.0 && st.bands != [] && Within(area, buf)
    reads buf
  {
    && (forall y, x | 0 <= y < buf.Length0 && 0 <= x < buf.Length1 && !Inside(area, x, y) :: buf[y, x] == old(buf[y, x]))
    && (forall y, x | 0 <= y < area.height && 0 <= x < area.width ::
          PlotFits(st.plot, area, x, y);
          var subRows := SubRows(st.plot, area.height);
          var tops := AllTops(st, Capacity(st.plot, area.width), subRows);
          var symbol := Symbol(st.plot, Totals(tops), subRows, x, y);
          CellAt(buf, area, x, y)
          == if symbol.Some? then Cell(symbol.value, Solid(OwnerIn(st.plot, tops, subRows, x, y)))
             else old(CellAt(buf, area, x, y)))
  }

  method Render(st: Stacked, buf: array2<Cell>, area: Area)
    requires area.width > 0 && area.height > 0 && st.max > 0.0 && st.bands != [] ==> Within(area, buf)
    modifies buf
    ensures forall y, x | 0 <= y < buf.Length0 && 0 <= x < buf.Length1 ::
              buf[y, x] == Painted(Shown(st, area), area, x, y, old(buf[y, x]))
    ensures area.width > 0 && area.height > 0 && st.max > 0.0 && st.bands != [] ==> BandsDrawn(st, buf, area)
    ensures area.width > 0 && area.height > 0 && st.max > 0.0 && st.bands != [] && old(Unpainted(buf, area)) ==>
              Draws(buf, area, st.plot, Totals(AllTops(st, Capacity(st.plot, area.width), SubRows(st.plot, area.height))))
  {
    hide AllTops, Symbol, OwnerIn, Totals;
    if area.width == 0 || area.height == 0 || st.max <= 0.0 || st.bands == [] {
      return;
    }
    var columns := Capacity(st.plot, area.width);
    var subRows := SubRows(st.plot, area.height);
    var tops := TopsOf(st, columns, subRows);
    ghost var shown := Shown(st, area);
    for cellY: int := 0 to area.height
      invariant fresh(tops) && tops[..] == AllTops(st, columns, subRows)
      invariant forall y, x | 0 <= y < buf.Length0 && 0 <= x < buf.Length1 ::
                  buf[y, x] == if y < area.y + cellY then Painted(shown, area, x, y, old(buf[y, x])) else old(buf[y, x])
    {
      RenderRow(st, tops[..], buf, area, cellY);
    }
    ghost var all := AllTops(st, columns, subRows);
    forall y, x | 0 <= y < area.height && 0 <= x < area.width
      ensures CellAt(buf, area, x, y)
           == var symbol := Symbol(st.plot, Totals(all), subRows, x, y);
              if symbol.Some? then Cell(symbol.value, Solid(OwnerIn(st.plot, all, subRows, x, y)))
              else old(CellAt(buf, area, x, y))
    {
      PlotFits(st.plot, area, x, y);
    }
    forall y, x | 0 <= y < area.height && 0 <= x < area.width && old(Unpainted(buf, area))
      ensures GlyphAt(buf, area, x, y) == Drawn(Symbol(st.plot, Totals(AllTops(st, columns, subRows)), subRows, x, y))
    {
      PlotFits(st.plot, area, x, y);
      assert old(GlyphAt(buf, area, x, y)) == Blank;
    }
  }

  method RenderRow(st: Stacked, tops: seq<seq<nat>>, buf: array2<Cell>, area: Area, cellY: int)
    requires Within(area, buf) && area.width > 0 && 0 <= cellY < area.height && st.max > 0.0 && st.bands != []
    requires tops == AllTops(st, Capacity(st.plot, area.width), SubRows(st.plot, area.height))
    modifies buf
    ensures forall y, x | 0 <= y < buf.Length0 && 0 <= x < buf.Length1 ::
              buf[y, x] == if y == area.y + cellY then Painted(Shown(st, area), area, x, y, old(buf[y, x]))
                           else old(buf[y, x])
  {
    hide AllTops, Symbol, OwnerIn, Totals;
    ghost var shown := Shown(st, area);
    for cellX: int := 0 to area.width
      invariant forall y, x | 0 <= y < buf.Length0 && 0 <= x < buf.Length1 ::
                  buf[y, x] == if y == area.y + cellY && x < area.x + cellX then Painted(shown, area, x, y, old(buf[y, x]))
                               else old(buf[y, x])
    {
      PlotFits(st.plot, area, cellX, cellY);
      var symbol, band := CellFor(st.plot, tops, SubRows(st.plot, area.height), cellX, cellY);
      if symbol.Some? {
        buf[area.y + cellY, area.x + cellX] := Cell(symbol.value, Solid(band));
      }
    }
  }

  // ----- Properties

  ghost predicate Rising(tops: seq<nat>) {
    forall i, j | 0 <= i <= j < |tops| :: tops[i] <= tops[j]
  }

  /** Every band has a reading for the column, as bands of one length do. */
  ghost predicate Reached(st: Stacked, n: nat, columns: nat, column: nat)
    requires n <= |st.bands| && column < columns
  {
    forall i | 0 <= i < n :: columns - 1 - column < |st.bands[i]|
  }

  ghost function HeightsIn(st: Stacked, n: nat, columns: nat, subRows: nat, column: nat): (hs: seq<nat>)
    requires st.max > 0.0 && n <= |st.bands| && column < columns && Reached(st, n, columns, column)
    ensures |hs| == n
  {
    seq(n, i requires 0 <= i < n => HeightIn(st, i, columns, subRows, column).value)
  }

  ghost function Sum(hs: seq<nat>): nat {
    if hs == [] then 0 else Sum(hs[..|hs| - 1]) + hs[|hs| - 1]
  }

  /** No band goes past 64 bits on top of those below it, which take at most the plot. */
  ghost predicate Unwrapped(heights: seq<nat>, subRows: nat) {
    forall i | 0 <= i < |heights| :: Least(subRows, Sum(heights[..i])) + heights[i] < TWO_64
  }

  /**
   The bands of a column end one above the other, the last at the sum of their heights or the top of the plot,
   exactly if no addition wraps.
   */
  lemma {:induction false} TopsRiseUnlessWrapped(st: Stacked, n: nat, columns: nat, subRows: nat, column: nat)
    requires st.max > 0.0 && n <= |st.bands| && column < columns && Reached(st, n, columns, column)
    ensures var tops := TopsIn(st, n, columns, subRows, column);
            var heights := HeightsIn(st, n, columns, subRows, column);
            && (Rising(tops) <==> Unwrapped(heights, subRows))
            && (Rising(tops) ==> Total(tops) == Least(subRows, Sum(heights)))
  {
    hide BandHeight, TopOf, HeightIn, HeightsIn, TopsIn, Rising, Unwrapped, Sum, Reached, Total;
    if n == 0 {
      NoBandsRise(st, columns, subRows, column);
    } else {
      LowerBandsReach(st, n, columns, column);
      TopsRiseUnlessWrapped(st, n - 1, columns, subRows, column);
      var height := OneBandHigher(st, n - 1, columns, subRows, column);
      var lower, below := TopsIn(st, n - 1, columns, subRows, column), HeightsIn(st, n - 1, columns, subRows, column);
      RiseStep(lower, below, height, subRows);
      TotalOfTop(lower, TopOf(Total(lower), height, subRows));
    }
  }

  lemma LowerBandsReach(st: Stacked, n: nat, columns: nat, column: nat)
    requires 0 < n <= |st.bands| && column < columns && Reached(st, n, columns, column)
    ensures Reached(st, n - 1, columns, column)
  {
  }

  lemma NoBandsRise(st: Stacked, columns: nat, subRows: nat, column: nat)
    requires st.max > 0.0 && column < columns && Reached(st, 0, columns, column)
    ensures var tops, heights := TopsIn(st, 0, columns, subRows, column), HeightsIn(st, 0, columns, subRows, column);
            Rising(tops) && Unwrapped(heights, subRows) && Total(tops) == Least(subRows, Sum(heights))
  {
  }

  lemma TotalOfTop(lower: seq<nat>, top: nat)
    ensures Total(lower + [top]) == top
  {
  }

  /** One band more puts its top and its height at the end. */
  lemma OneBandHigher(st: Stacked, n: nat, columns: nat, subRows: nat, column: nat) returns (height: nat)
    requires st.max > 0.0 && n < |st.bands| && column < columns && Reached(st, n + 1, columns, column)
    ensures Reached(st, n, columns, column) && height < TWO_64
    ensures var lower := TopsIn(st, n, columns, subRows, column);
            && TopsIn(st, n + 1, columns, subRows, column) == lower + [TopOf(Total(lower), height, subRows)]
            && HeightsIn(st, n + 1, columns, subRows, column) == HeightsIn(st, n, columns, subRows, column) + [height]
  {
    hide BandHeight, TopOf;
    OneMoreBand(st, n, columns, subRows, column);
    height := HeightIn(st, n, columns, subRows, column).value;
  }

  lemma RiseStep(lower: seq<nat>, below: seq<nat>, height: nat, subRows: nat)
    requires |lower| == |below| && height < TWO_64
    requires forall i | 0 <= i < |lower| :: lower[i] <= subRows
    requires Rising(lower) <==> Unwrapped(below, subRows)
    requires Rising(lower) ==> Total(lower) == Least(subRows, Sum(below))
    ensures var top := TopOf(Total(lower), height, subRows);
            && (Rising(lower + [top]) <==> Unwrapped(below + [height], subRows))
            && (Rising(lower + [top]) ==> top == Least(subRows, Sum(below + [height])))
  {
    var top := TopOf(Total(lower), height, subRows);
    assert (below + [height])[..|below|] == below;
    Wraps(Total(lower), height, subRows);
    RisingAppend(lower, top);
    UnwrappedAppend(below, height, subRows);
  }

  lemma Wraps(below: nat, height: nat, subRows: nat)
    requires below <= subRows && height < TWO_64
    ensures below + height < TWO_64 ==> below <= TopOf(below, height, subRows) == Least(below + height, subRows)
    ensures TopOf(below, height, subRows) >= below && below > 0 && below < TWO_64 ==> below + height < TWO_64
  {
  }

  lemma RisingAppend(tops: seq<nat>, top: nat)
    ensures Rising(tops + [top]) <==> Rising(tops) && Total(tops) <= top
  {
    var all := tops + [top];
    if Rising(all) {
      forall i, j | 0 <= i <= j < |tops|
        ensures tops[i] <= tops[j]
      {
        assert all[i] <= all[j];
      }
      if tops != [] { assert all[|tops| - 1] <= all[|tops|]; }
    }
  }

  lemma UnwrappedAppend(heights: seq<nat>, height: nat, subRows: nat)
    ensures Unwrapped(heights + [height], subRows)
       <==> Unwrapped(heights, subRows) && Least(subRows, Sum(heights)) + height < TWO_64
  {
    hide Sum;
    var more := heights + [height];
    assert forall i | 0 <= i < |heights| :: more[..i] == heights[..i] && more[i] == heights[i];
    assert more[..|heights|] == heights && more[|heights|] == height;
  }

  /** A reading about 2^64 times the scale, on top of a full band: the upper band ends below the lower. */
  lemma AWrappedStackFalls()
    ensures var st := Stacked([[Finite(1.0)], [Finite(TWO_64 as real)]], 1.0, Block);
            TopsIn(st, 2, Capacity(st.plot, 1), SubRows(st.plot, 1), 0) == [8, 7]
  {
    var st := Stacked([[Finite(1.0)], [Finite(TWO_64 as real)]], 1.0, Block);
    assert Rounded(Scaled(1.0, 1.0, 8)) == 8;
    assert Scaled(TWO_64 as real, 1.0, 8) >= TWO_64 as real;
    assert BandHeight(st, Finite(TWO_64 as real), 8) == TWO_64 - 1;
    assert TopsIn(st, 0, 1, 8, 0) == [];
    OneMoreBand(st, 0, 1, 8, 0);
    OneMoreBand(st, 1, 1, 8, 0);
  }

  /** A band on its own is as high as a graph of it, up to the top of the plot; it is not cut off there but at 64 bits. */
  lemma BandIsAGraph(st: Stacked, v: real, subRows: nat)
    requires st.max > 0.0 && 0 < subRows < TWO_64
    ensures Least(BandHeight(st, Finite(v), subRows), subRows) == HeightOf(Graph([], st.max, st.plot), Finite(v), subRows)
    ensures BandHeight(st, NotFinite, subRows) == 0
    ensures v > 0.0 && 1 <= Rounded(Scaled(v, st.max, subRows)) ==>
              BandHeight(st, Finite(v), subRows) == Least(Rounded(Scaled(v, st.max, subRows)), TWO_64 - 1)
  {
    hide Rounded, Scaled;
  }

  /** The owner of a height is the band that covers it. */
  lemma {:induction false} OwnerCovers(tops: seq<nat>, height: nat)
    requires tops != [] && Rising(tops) && height <= Total(tops)
    ensures var band := Owner(tops, height);
            height <= tops[band] && (band > 0 ==> tops[band - 1] < height)
  {
    if height <= tops[0] {
    } else {
      var rest := tops[1..];
      assert rest != [];
      forall i, j | 0 <= i <= j < |rest|
        ensures rest[i] <= rest[j]
      {
        assert tops[i + 1] <= tops[j + 1];
      }
      OwnerCovers(rest, height);
    }
  }

  /** No sub-row of the cell above `height` is filled in any of its columns. */
  ghost predicate NothingAbove(plot: Plot, tops: seq<seq<nat>>, subRows: nat, cellX: nat, cellY: nat, height: nat)
    requires (cellX + 1) * SamplesPerCell(plot) <= |tops|
  {
    forall c | cellX * SamplesPerCell(plot) <= c < (cellX + 1) * SamplesPerCell(plot) ::
      Least(Total(tops[c]), subRows - cellY * RowsPerCell(plot)) <= height
  }

  /** `height` is filled in `column`, it lies in the cell, and nothing in the cell is filled above it. */
  ghost predicate IsPeak(plot: Plot, tops: seq<seq<nat>>, subRows: nat, cellX: nat, cellY: nat, column: nat, height: nat)
    requires (cellX + 1) * SamplesPerCell(plot) <= |tops|
  {
    && cellX * SamplesPerCell(plot) <= column < (cellX + 1) * SamplesPerCell(plot)
    && subRows - (cellY + 1) * RowsPerCell(plot) < height <= subRows - cellY * RowsPerCell(plot)
    && height <= Total(tops[column])
    && NothingAbove(plot, tops, subRows, cellX, cellY, height)
  }

  lemma BlockPeak(tops: seq<seq<nat>>, subRows: nat, cellX: nat, cellY: nat) returns (height: nat)
    requires cellX < |tops| && (cellY + 1) * 8 <= subRows
    requires Symbol(Block, Totals(tops), subRows, cellX, cellY).Some?
    ensures height == subRows - (cellY + 1) * 8 + EighthsIn(Total(tops[cellX]), subRows, cellY)
    ensures IsPeak(Block, tops, subRows, cellX, cellY, cellX, height)
  {
    hide Total;
    height := subRows - (cellY + 1) * 8 + EighthsIn(Total(tops[cellX]), subRows, cellY);
  }

  lemma DotAt(plot: Plot, tops: seq<seq<nat>>, subRows: nat, cellX: nat, cellY: nat, i: nat)
    requires plot != Block && 2 * cellX + 1 < |tops| && (cellY + 1) * 4 <= subRows && i < 8
    ensures DotBits(plot, Totals(tops), subRows, cellX, cellY)[i]
       <==> Total(tops[2 * cellX + i % 2]) >= FromBottom(plot, subRows, cellY, i / 2)
  {
    hide Total;
  }

  lemma DotPeak(plot: Plot, tops: seq<seq<nat>>, subRows: nat, cellX: nat, cellY: nat, first: nat)
    returns (column: nat, height: nat)
    requires plot != Block && 2 * cellX + 1 < |tops| && (cellY + 1) * 4 <= subRows && first < 8
    requires var bits := DotBits(plot, Totals(tops), subRows, cellX, cellY);
             bits[first] && forall i | 0 <= i < first :: !bits[i]
    ensures column == 2 * cellX + first % 2 && height == FromBottom(plot, subRows, cellY, first / 2)
    ensures IsPeak(plot, tops, subRows, cellX, cellY, column, height)
  {
    hide Total, Pattern, DotBits;
    column, height := 2 * cellX + first % 2, FromBottom(plot, subRows, cellY, first / 2);
    DotAt(plot, tops, subRows, cellX, cellY, first);
    DotsEndAt(plot, tops, subRows, cellX, cellY, 2 * cellX, height, first);
    DotsEndAt(plot, tops, subRows, cellX, cellY, 2 * cellX + 1, height, first);
  }

  /** No column of the cell to the left of `column` reaches `height`. */
  ghost predicate Leftmost(plot: Plot, tops: seq<seq<nat>>, cellX: nat, column: nat, height: nat)
    requires (cellX + 1) * SamplesPerCell(plot) <= |tops| && column < (cellX + 1) * SamplesPerCell(plot)
  {
    forall c | cellX * SamplesPerCell(plot) <= c < column :: Total(tops[c]) < height
  }

  lemma FirstIsLeftmost(plot: Plot, tops: seq<seq<nat>>, subRows: nat, cellX: nat, cellY: nat, first: nat)
    requires plot != Block && 2 * cellX + 1 < |tops| && (cellY + 1) * 4 <= subRows && first < 8
    requires var bits := DotBits(plot, Totals(tops), subRows, cellX, cellY); forall i | 0 <= i < first :: !bits[i]
    ensures FromBottom(plot, subRows, cellY, first / 2) > 0
    ensures Leftmost(plot, tops, cellX, 2 * cellX + first % 2, FromBottom(plot, subRows, cellY, first / 2))
  {
    hide Total;
    var bits := DotBits(plot, Totals(tops), subRows, cellX, cellY);
    if first % 2 == 1 {
      assert (first - 1) / 2 == first / 2 && (first - 1) % 2 == 0 && !bits[first - 1];
    }
  }

  /** A painted cell takes the owner of the highest sub-row filled in it, in the leftmost column that has it. */
  lemma CellTakesTheHighest(plot: Plot, tops: seq<seq<nat>>, subRows: nat, cellX: nat, cellY: nat)
    returns (column: nat, height: nat)
    requires (cellX + 1) * SamplesPerCell(plot) <= |tops| && (cellY + 1) * RowsPerCell(plot) <= subRows
    requires forall c | 0 <= c < |tops| :: tops[c] != []
    requires Symbol(plot, Totals(tops), subRows, cellX, cellY).Some?
    ensures IsPeak(plot, tops, subRows, cellX, cellY, column, height)
    ensures Leftmost(plot, tops, cellX, column, height)
    ensures OwnerIn(plot, tops, subRows, cellX, cellY) == Owner(tops[column], height)
  {
    hide Owner, FirstLit, Pattern, Total, IsPeak, EighthsIn;
    if plot == Block {
      column := cellX;
      height := BlockPeak(tops, subRows, cellX, cellY);
    } else {
      var bits := DotBits(plot, Totals(tops), subRows, cellX, cellY);
      SomethingLit(bits);
      column, height := DotPeak(plot, tops, subRows, cellX, cellY, FirstLit(bits));
      FirstIsLeftmost(plot, tops, subRows, cellX, cellY, FirstLit(bits));
    }
    PeakIsInTheCell(plot, tops, subRows, cellX, cellY, column, height);
  }

  lemma PeakIsInTheCell(plot: Plot, tops: seq<seq<nat>>, subRows: nat, cellX: nat, cellY: nat, column: nat, height: nat)
    requires (cellX + 1) * SamplesPerCell(plot) <= |tops|
    ensures IsPeak(plot, tops, subRows, cellX, cellY, column, height) ==> column < |tops|
  {
  }

  lemma DotsEndAt(plot: Plot, tops: seq<seq<nat>>, subRows: nat, cellX: nat, cellY: nat, c: nat, height: nat, first: nat)
    requires plot != Block && 2 * cellX + 1 < |tops| && (cellY + 1) * 4 <= subRows && 2 * cellX <= c <= 2 * cellX + 1
    requires first < 8 && height == FromBottom(plot, subRows, cellY, first / 2)
    requires var bits := DotBits(plot, Totals(tops), subRows, cellX, cellY); forall i | 0 <= i < first :: !bits[i]
    ensures Least(Total(tops[c]), subRows - cellY * 4) <= height
  {
    hide Total;
    var bits := DotBits(plot, Totals(tops), subRows, cellX, cellY);
    if first / 2 > 0 {
      var row := first / 2 - 1;
      var i := 2 * row + (c - 2 * cellX);
      assert i / 2 == row && i % 2 == c - 2 * cellX && i < first;
      assert !bits[i];
    }
  }

  /** The sub-rows filled in a column are the sum of the bands' heights, or the whole column. */
  lemma StackingIsLossless(st: Stacked, buf: array2<Cell>, area: Area, column: nat)
    requires st.max > 0.0 && st.bands != [] && Within(area, buf) && column < Capacity(st.plot, area.width)
    requires Draws(buf, area, st.plot, Totals(AllTops(st, Capacity(st.plot, area.width), SubRows(st.plot, area.height))))
    requires Reached(st, |st.bands|, Capacity(st.plot, area.width), column)
    requires var (columns, subRows) := (Capacity(st.plot, area.width), SubRows(st.plot, area.height));
             Unwrapped(HeightsIn(st, |st.bands|, columns, subRows, column), subRows)
    ensures var (columns, subRows) := (Capacity(st.plot, area.width), SubRows(st.plot, area.height));
            FilledCount(buf, area, st.plot, column, subRows)
            == Least(subRows, Sum(HeightsIn(st, |st.bands|, columns, subRows, column)))
  {
    hide Unwrapped, HeightsIn, TopsIn, Sum;
    var (columns, subRows) := (Capacity(st.plot, area.width), SubRows(st.plot, area.height));
    TopsRiseUnlessWrapped(st, |st.bands|, columns, subRows, column);
    FilledCountIsHeight(buf, area, st.plot, Totals(AllTops(st, columns, subRows)), column, subRows);
  }

  /** Wrapping takes a reading about 2^64 sub-rows high: below that bound bands always rise. */
  lemma ModestBandsNeverWrap(st: Stacked, columns: nat, subRows: nat, column: nat)
    requires st.max > 0.0 && column < columns && Reached(st, |st.bands|, columns, column)
    requires forall i | 0 <= i < |st.bands| ::
               HeightsIn(st, |st.bands|, columns, subRows, column)[i] + subRows < TWO_64
    ensures Rising(TopsIn(st, |st.bands|, columns, subRows, column))
  {
    hide HeightsIn, TopsIn;
    TopsRiseUnlessWrapped(st, |st.bands|, columns, subRows, column);
  }
}
