/**
 History graphs painted below cell resolution (src/ui/graph.rs). A cell holds one column of eight sub-rows or two
 columns of four. Values and scales are exact; a value that is not finite is its own case. A glyph is its family
 and its index in that family's table.
 */
module Graphs {
  import opened Wire

  datatype Plot = Braille | Octant | Block

  datatype Glyph = Blank | Eighth(filled: nat) | Dots(family: Plot, pattern: nat) | Other(c: char)

  /** A colour is a place on the graph's ramp, or the colour of a band. */
  datatype Colour = Ramp(position: real) | Solid(band: nat) | Unset

  datatype Cell = Cell(glyph: Glyph, colour: Colour)

  datatype Area = Area(x: u16, y: u16, width: u16, height: u16)

  datatype Reading = Finite(v: real) | NotFinite

  datatype Graph = Graph(values: seq<Reading>, max: real, plot: Plot)

  function SamplesPerCell(plot: Plot): (n: nat)
    ensures n > 0
  {
    if plot == Block then 1 else 2
  }

  function RowsPerCell(plot: Plot): (n: nat)
    ensures n > 0
  {
    if plot == Block then 8 else 4
  }

  function Capacity(plot: Plot, width: u16): nat {
    width * SamplesPerCell(plot)
  }

  function SubRows(plot: Plot, height: u16): nat {
    height * RowsPerCell(plot)
  }

  /** Of a number that is not negative, halves up. */
  function Rounded(x: real): (n: int)
    ensures x >= 0.0 ==> n >= 0
  {
    (x + 0.5).Floor
  }

  /** A reading in sub-rows. */
  function Scaled(v: real, max: real, subRows: nat): real
    requires max > 0.0
  {
    v / max * subRows as real
  }

  // ----- Dot patterns

  /** Bits in the order the symbol tables are indexed by, lowest first. */
  function Pattern(bits: seq<bool>): nat {
    if bits == [] then 0 else (if bits[0] then 1 else 0) + 2 * Pattern(bits[1..])
  }

  predicate Bit(p: nat, i: nat) {
    if i == 0 then p % 2 == 1 else Bit(p / 2, i - 1)
  }

  function Pow2(n: nat): nat {
    if n == 0 then 1 else 2 * Pow2(n - 1)
  }

  lemma {:induction false} PatternKeepsBits(bits: seq<bool>, i: nat)
    requires i < |bits|
    ensures Bit(Pattern(bits), i) == bits[i]
  {
    if i == 0 {
    } else {
      PatternKeepsBits(bits[1..], i - 1);
      assert Pattern(bits) / 2 == Pattern(bits[1..]);
    }
  }

  lemma {:induction false} PatternAppend(bits: seq<bool>, b: bool)
    ensures Pattern(bits + [b]) == Pattern(bits) + if b then Pow2(|bits|) else 0
  {
    if bits == [] {
      assert [b][1..] == [];
    } else {
      assert (bits + [b])[1..] == bits[1..] + [b];
      PatternAppend(bits[1..], b);
    }
  }

  lemma {:induction false} PatternIsZero(bits: seq<bool>)
    ensures Pattern(bits) == 0 <==> forall i | 0 <= i < |bits| :: !bits[i]
  {
    if bits == [] {
    } else {
      PatternIsZero(bits[1..]);
      if bits[0] || exists i | 0 <= i < |bits[1..]| :: bits[1..][i] {
        assert exists i | 0 <= i < |bits| :: bits[i] by {
          if !bits[0] {
            var i :| 0 <= i < |bits[1..]| && bits[1..][i];
            assert bits[i + 1];
          }
        }
      } else {
        assert forall i | 1 <= i < |bits| :: bits[i] == bits[1..][i - 1];
      }
    }
  }

  // ----- Specification

  /** A reading above zero draws at least one sub-row, and none draws past the top. */
  function HeightOf(g: Graph, value: Reading, subRows: nat): (h: nat)
    requires g.max > 0.0 && subRows > 0
    ensures h <= subRows
    ensures h > 0 <==> value.Finite? && value.v > 0.0
  {
    if value.NotFinite? || value.v <= 0.0 then 0
    else
      var scaled := Rounded(Scaled(value.v, g.max, subRows));
      if scaled < 1 then 1 else if scaled > subRows then subRows else scaled
  }

  /** Columns count from the left; the newest reading is in the last. */
  function HeightAt(g: Graph, columns: nat, subRows: nat, column: nat): (h: nat)
    requires g.max > 0.0 && subRows > 0 && column < columns
    ensures h <= subRows
  {
    var age := columns - 1 - column;
    if age < |g.values| then HeightOf(g, g.values[|g.values| - 1 - age], subRows) else 0
  }

  function Heights(g: Graph, columns: nat, subRows: nat): (hs: seq<nat>)
    requires g.max > 0.0 && subRows > 0
    ensures |hs| == columns
    ensures forall c | 0 <= c < columns :: hs[c] == HeightAt(g, columns, subRows, c)
  {
    seq(columns, c requires 0 <= c < columns => HeightAt(g, columns, subRows, c))
  }

  /** The sub-row a cell's row stands for, counted from the bottom of the plot. */
  function FromBottom(plot: Plot, subRows: nat, cellY: nat, row: nat): int {
    subRows - (cellY * RowsPerCell(plot) + row)
  }

  function DotBits(plot: Plot, heights: seq<nat>, subRows: nat, cellX: nat, cellY: nat): (bits: seq<bool>)
    requires 2 * cellX + 1 < |heights|
    ensures |bits| == 8
  {
    seq(8, i requires 0 <= i < 8 => heights[2 * cellX + i % 2] >= FromBottom(plot, subRows, cellY, i / 2))
  }

  function Least(a: int, b: int): int {
    if a < b then a else b
  }

  function EighthsIn(height: nat, subRows: nat, cellY: nat): nat
    requires (cellY + 1) * 8 <= subRows
  {
    var base := subRows - (cellY + 1) * 8;
    if height <= base then 0 else Least(height - base, 8)
  }

  /** What a cell of the plot shows, if anything. */
  function Symbol(plot: Plot, heights: seq<nat>, subRows: nat, cellX: nat, cellY: nat): Option<Glyph>
    requires (cellX + 1) * SamplesPerCell(plot) <= |heights| && (cellY + 1) * RowsPerCell(plot) <= subRows
  {
    if plot == Block then
      var eighths := EighthsIn(heights[cellX], subRows, cellY);
      if eighths > 0 then Some(Eighth(eighths)) else None
    else
      var pattern := Pattern(DotBits(plot, heights, subRows, cellX, cellY));
      if pattern == 0 then None else Some(Dots(plot, pattern))
  }

  // ----- Rendering

  method SubRowsFor(g: Graph, value: Reading, subRows: nat) returns (h: nat)
    requires g.max > 0.0 && subRows > 0
    ensures h == HeightOf(g, value, subRows)
  {
    if value.NotFinite? || value.v <= 0.0 {
      return 0;
    }
    var scaled := Rounded(Scaled(value.v, g.max, subRows));
    var clamped: nat := if scaled < 0 then 0 else if scaled > subRows then subRows else scaled;
    return if clamped < 1 then 1 else clamped;
  }

  method HeightsOf(g: Graph, columns: nat, subRows: nat) returns (heights: array<nat>)
    requires g.max > 0.0 && subRows > 0
    ensures fresh(heights) && heights[..] == Heights(g, columns, subRows)
  {
    heights := new nat[columns](_ => 0);
    var recent := g.values[if |g.values| > columns then |g.values| - columns else 0..];
    var offset := columns - |recent|;
    for index := 0 to |recent|
      invariant forall c | 0 <= c < offset :: heights[c] == 0
      invariant forall c | offset <= c < offset + index :: heights[c] == HeightAt(g, columns, subRows, c)
    {
      heights[offset + index] := SubRowsFor(g, recent[index], subRows);
    }
  }

  method SymbolFor(plot: Plot, heights: seq<nat>, subRows: nat, cellX: nat, cellY: nat) returns (symbol: Option<Glyph>)
    requires (cellX + 1) * SamplesPerCell(plot) <= |heights| && (cellY + 1) * RowsPerCell(plot) <= subRows
    ensures symbol == Symbol(plot, heights, subRows, cellX, cellY)
  {
    var rowsPerCell := RowsPerCell(plot);
    if plot == Block {
      var base := subRows - (cellY + 1) * rowsPerCell;
      var above := if heights[cellX] > base then heights[cellX] - base else 0;
      var eighths := if above < 8 then above else 8;
      return if eighths > 0 then Some(Eighth(eighths)) else None;
    }
    hide Pattern, Pow2;
    ghost var bits := DotBits(plot, heights, subRows, cellX, cellY);
    var pattern: nat := 0;
    NoBits();
    assert bits[..0] == [];
    for row := 0 to 4
      invariant pattern == Pattern(bits[..2 * row])
    {
      var fromBottom := subRows - (cellY * rowsPerCell + row);
      for column := 0 to 2
        invariant pattern == Pattern(bits[..2 * row + column])
      {
        ghost var i := 2 * row + column;
        AddBit(bits, i);
        assert i / 2 == row && i % 2 == column;
        if heights[cellX * 2 + column] >= fromBottom {
          pattern := pattern + Pow2(row * 2 + column);
        }
      }
    }
    assert bits[..8] == bits;
    return if pattern == 0 then None else Some(Dots(plot, pattern));
  }

  lemma NoBits()
    ensures Pattern([]) == 0
  {
  }

  lemma AddBit(bits: seq<bool>, i: nat)
    requires i < |bits|
    ensures Pattern(bits[..i + 1]) == Pattern(bits[..i]) + if bits[i] then Pow2(i) else 0
  {
    assert bits[..i + 1] == bits[..i] + [bits[i]];
    PatternAppend(bits[..i], bits[i]);
  }

  /** The area lies within the buffer; painting outside it is a panic in the original. */
  predicate Within(area: Area, buf: array2<Cell>) {
    area.x + area.width <= buf.Length1 && area.y + area.height <= buf.Length0
  }

  /** What a plot shows at each cell of its area. */
  type Picture = (int, int) -> Option<Cell>

  /** Where a picture shows nothing the cell keeps what was there, and outside the area every cell does. */
  function Painted(picture: Picture, area: Area, x: int, y: int, before: Cell): Cell {
    if area.x <= x < area.x + area.width && area.y <= y < area.y + area.height then
      match picture(x - area.x, y - area.y)
      case Some(cell) => cell
      case None => before
    else before
  }

  function RampAt(height: u16, cellY: int): Colour
    requires height > 0
  {
    Ramp(1.0 - (cellY as real + 0.5) / height as real)
  }

  function Shown(g: Graph, area: Area): Picture {
    (x: int, y: int) =>
      if 0 <= x < area.width && 0 <= y < area.height && g.max > 0.0 then
        PlotFits(g.plot, area, x, y);
        var subRows := SubRows(g.plot, area.height);
        match Symbol(g.plot, Heights(g, Capacity(g.plot, area.width), subRows), subRows, x, y)
        case Some(glyph) => Some(Cell(glyph, RampAt(area.height, y)))
        case None => None
      else None
  }

  lemma PlotFits(plot: Plot, area: Area, x: int, y: int)
    requires 0 <= x < area.width && 0 <= y < area.height
    ensures (x + 1) * SamplesPerCell(plot) <= Capacity(plot, area.width)
    ensures (y + 1) * RowsPerCell(plot) <= SubRows(plot, area.height)
    ensures SubRows(plot, area.height) > 0
  {
  }

  function GlyphAt(buf: array2<Cell>, area: Area, x: int, y: int): Glyph
    requires Within(area, buf) && 0 <= x < area.width && 0 <= y < area.height
    reads buf
  {
    buf[area.y + y, area.x + x].glyph
  }

  ghost predicate Unpainted(buf: array2<Cell>, area: Area)
    requires Within(area, buf)
    reads buf
  {
    forall y, x | 0 <= y < area.height && 0 <= x < area.width :: GlyphAt(buf, area, x, y) == Blank
  }

  function Drawn(symbol: Option<Glyph>): Glyph {
    if symbol.Some? then symbol.value else Blank
  }

  /** The cells of the area show these heights and nothing else. */
  ghost predicate Draws(buf: array2<Cell>, area: Area, plot: Plot, heights: seq<nat>)
    requires Within(area, buf) && |heights| == Capacity(plot, area.width)
    reads buf
  {
    forall y, x | 0 <= y < area.height && 0 <= x < area.width ::
      PlotFits(plot, area, x, y);
      GlyphAt(buf, area, x, y) == Drawn(Symbol(plot, heights, SubRows(plot, area.height), x, y))
  }

  predicate Inside(area: Area, x: int, y: int) {
    area.x <= x < area.x + area.width && area.y <= y < area.y + area.height
  }

  /** The ramp is read at the height of a row's middle. */
  lemma RampAtTheMiddle(height: u16, cellY: int)
    requires 0 <= cellY < height
    ensures RampAt(height, cellY).position * height as real == height as real - cellY as real - 0.5
    ensures 0.0 < RampAt(height, cellY).position < 1.0
  {
    var q := (cellY as real + 0.5) / height as real;
    assert q * height as real == cellY as real + 0.5;
  }

  /** What drawing a series must leave of a buffer: glyphs and ramp colours where something is filled, and the rest. */
  twostate predicate GraphDrawn(g: Graph, buf: array2<Cell>, area: Area)
    requires g.max > 0.0 && Within(area, buf)
    reads buf
  {
    && (forall y, x | 0 <= y < buf.Length0 && 0 <= x < buf.Length1 && !Inside(area, x, y) :: buf[y, x] == old(buf[y, x]))
    && (forall y, x | 0 <= y < area.height && 0 <= x < area.width ::
          PlotFits(g.plot, area, x, y);
          var subRows := SubRows(g.plot, area.height);
          var symbol := Symbol(g.plot, Heights(g, Capacity(g.plot, area.width), subRows), subRows, x, y);
          CellAt(buf, area, x, y)
          == if symbol.Some? then Cell(symbol.value, RampAt(area.height, y)) else old(CellAt(buf, area, x, y)))
  }

  function CellAt(buf: array2<Cell>, area: Area, x: int, y: int): Cell
    requires Within(area, buf) && 0 <= x < area.width && 0 <= y < area.height
    reads buf
  {
    buf[area.y + y, area.x + x]
  }

  method Render(g: Graph, buf: array2<Cell>, area: Area)
    requires area.width > 0 && area.height > 0 && g.max > 0.0 ==> Within(area, buf)
    modifies buf
    ensures forall y, x | 0 <= y < buf.Length0 && 0 <= x < buf.Length1 ::
              buf[y, x] == Painted(Shown(g, area), area, x, y, old(buf[y, x]))
    ensures area.width > 0 && area.height > 0 && g.max > 0.0 ==> GraphDrawn(g, buf, area)
    ensures area.width > 0 && area.height > 0 && g.max > 0.0 && old(Unpainted(buf, area)) ==>
              Draws(buf, area, g.plot, Heights(g, Capacity(g.plot, area.width), SubRows(g.plot, area.height)))
  {
    hide Heights, Symbol;
    if area.width == 0 || area.height == 0 || g.max <= 0.0 {
      return;
    }
    var columns := Capacity(g.plot, area.width);
    var subRows := SubRows(g.plot, area.height);
    var heights := HeightsOf(g, columns, subRows);
    ghost var shown := Shown(g, area);
    for cellY: int := 0 to area.height
      invariant fresh(heights) && heights[..] == Heights(g, columns, subRows)
      invariant forall y, x | 0 <= y < buf.Length0 && 0 <= x < buf.Length1 ::
                  buf[y, x] == if y < area.y + cellY then Painted(shown, area, x, y, old(buf[y, x])) else old(buf[y, x])
    {
      RenderRow(g, heights[..], buf, area, cellY);
    }
    forall y, x | 0 <= y < area.height && 0 <= x < area.width
      ensures CellAt(buf, area, x, y)
           == var symbol := Symbol(g.plot, Heights(g, columns, subRows), subRows, x, y);
              if symbol.Some? then Cell(symbol.value, RampAt(area.height, y)) else old(CellAt(buf, area, x, y))
    {
      PlotFits(g.plot, area, x, y);
    }
    forall y, x | 0 <= y < area.height && 0 <= x < area.width && old(Unpainted(buf, area))
      ensures GlyphAt(buf, area, x, y) == Drawn(Symbol(g.plot, Heights(g, columns, subRows), subRows, x, y))
    {
      PlotFits(g.plot, area, x, y);
      assert old(GlyphAt(buf, area, x, y)) == Blank;
    }
  }

  /** One row of cells. */
  method RenderRow(g: Graph, heights: seq<nat>, buf: array2<Cell>, area: Area, cellY: int)
    requires Within(area, buf) && area.width > 0 && 0 <= cellY < area.height && g.max > 0.0
    requires heights == Heights(g, Capacity(g.plot, area.width), SubRows(g.plot, area.height))
    modifies buf
    ensures forall y, x | 0 <= y < buf.Length0 && 0 <= x < buf.Length1 ::
              buf[y, x] == if y == area.y + cellY then Painted(Shown(g, area), area, x, y, old(buf[y, x])) else old(buf[y, x])
  {
    hide Heights, Symbol;
    ghost var shown := Shown(g, area);
    var colour := RampAt(area.height, cellY);
    for cellX: int := 0 to area.width
      invariant forall y, x | 0 <= y < buf.Length0 && 0 <= x < buf.Length1 ::
                  buf[y, x] == if y == area.y + cellY && x < area.x + cellX then Painted(shown, area, x, y, old(buf[y, x]))
                               else old(buf[y, x])
    {
      PlotFits(g.plot, area, cellX, cellY);
      var symbol := SymbolFor(g.plot, heights, SubRows(g.plot, area.height), cellX, cellY);
      if symbol.Some? {
        buf[area.y + cellY, area.x + cellX] := Cell(symbol.value, colour);
      }
    }
  }

  // ----- Reading a plot back

  /** Whether a glyph fills a sub-row, counted from the top of its cell, in one of its columns. */
  predicate Lit(glyph: Glyph, column: nat, row: nat) {
    match glyph
    case Eighth(filled) => row + filled >= 8
    case Dots(_, pattern) => Bit(pattern, 2 * row + column)
    case _ => false
  }

  /** Places that fill whole cells. */
  lemma InWholeCells(n: nat, i: nat, per: nat)
    requires (per == 1 || per == 2 || per == 4 || per == 8) && n % per == 0 && i < n
    ensures (i / per + 1) * per <= n
  {
    if per == 1 {
    } else if per == 2 {
    } else if per == 4 {
    } else {
    }
  }

  /** The cell a sample column and a sub-row (from the bottom, first is 1) fall into, and the place in it. */
  predicate FilledAt(plot: Plot, heights: seq<nat>, subRows: nat, column: nat, k: nat)
    requires |heights| % SamplesPerCell(plot) == 0 && subRows % RowsPerCell(plot) == 0
    requires column < |heights| && 1 <= k <= subRows
  {
    var (per, rows) := (SamplesPerCell(plot), RowsPerCell(plot));
    var top := subRows - k;
    InWholeCells(|heights|, column, per);
    InWholeCells(subRows, top, rows);
    match Symbol(plot, heights, subRows, column / per, top / rows)
    case None => false
    case Some(glyph) => Lit(glyph, column % per, top % rows)
  }

  /** A sub-row is filled exactly if the sample in its column reaches it. */
  lemma FilledIffReached(plot: Plot, heights: seq<nat>, subRows: nat, column: nat, k: nat)
    requires |heights| % SamplesPerCell(plot) == 0 && subRows % RowsPerCell(plot) == 0
    requires column < |heights| && 1 <= k <= subRows
    ensures FilledAt(plot, heights, subRows, column, k) <==> k <= heights[column]
  {
    hide Symbol, Lit;
    if plot == Block {
      EighthFilled(heights, subRows, column, k);
    } else {
      DotFilled(plot, heights, subRows, column, k);
    }
  }

  lemma EighthFilled(heights: seq<nat>, subRows: nat, column: nat, k: nat)
    requires subRows % 8 == 0 && column < |heights| && 1 <= k <= subRows
    ensures FilledAt(Block, heights, subRows, column, k) <==> k <= heights[column]
  {
    hide Symbol;
    EighthIsLit(heights, subRows, column, (subRows - k) / 8, (subRows - k) % 8);
  }

  lemma DotFilled(plot: Plot, heights: seq<nat>, subRows: nat, column: nat, k: nat)
    requires plot != Block && |heights| % 2 == 0 && subRows % 4 == 0 && column < |heights| && 1 <= k <= subRows
    ensures FilledAt(plot, heights, subRows, column, k) <==> k <= heights[column]
  {
    hide Symbol, Bit;
    var (x, y, row) := (column / 2, (subRows - k) / 4, (subRows - k) % 4);
    assert (2 * row + column % 2) / 2 == row && (2 * row + column % 2) % 2 == column % 2;
    DotIsLit(plot, heights, subRows, x, y, 2 * row + column % 2);
  }

  lemma EighthIsLit(heights: seq<nat>, subRows: nat, cellX: nat, cellY: nat, row: nat)
    requires cellX < |heights| && (cellY + 1) * 8 <= subRows && row < 8
    ensures var reached := heights[cellX] >= FromBottom(Block, subRows, cellY, row);
            match Symbol(Block, heights, subRows, cellX, cellY)
            case None => !reached
            case Some(glyph) => glyph.Eighth? && (row + glyph.filled >= 8 <==> reached)
  {
  }

  lemma DotIsLit(plot: Plot, heights: seq<nat>, subRows: nat, cellX: nat, cellY: nat, i: nat)
    requires plot != Block && 2 * cellX + 1 < |heights| && (cellY + 1) * 4 <= subRows && i < 8
    ensures var reached := heights[2 * cellX + i % 2] >= FromBottom(plot, subRows, cellY, i / 2);
            match Symbol(plot, heights, subRows, cellX, cellY)
            case None => !reached
            case Some(glyph) => glyph.Dots? && (Bit(glyph.pattern, i) <==> reached)
  {
    hide Pattern, Bit;
    var bits := DotBits(plot, heights, subRows, cellX, cellY);
    PatternKeepsBits(bits, i);
    PatternIsZero(bits);
  }

  // ----- Reading the buffer back

  /** Whether the buffer shows a sub-row, from the bottom, of a sample column filled. */
  predicate FilledOn(buf: array2<Cell>, area: Area, plot: Plot, column: nat, k: nat)
    requires Within(area, buf) && column < Capacity(plot, area.width) && 1 <= k <= SubRows(plot, area.height)
    reads buf
  {
    var (per, rows) := (SamplesPerCell(plot), RowsPerCell(plot));
    var top := SubRows(plot, area.height) - k;
    Lit(GlyphAt(buf, area, column / per, top / rows), column % per, top % rows)
  }

  lemma FilledOnIffReached(buf: array2<Cell>, area: Area, plot: Plot, heights: seq<nat>, column: nat, k: nat)
    requires Within(area, buf) && |heights| == Capacity(plot, area.width) && Draws(buf, area, plot, heights)
    requires column < Capacity(plot, area.width) && 1 <= k <= SubRows(plot, area.height)
    ensures FilledOn(buf, area, plot, column, k) <==> k <= heights[column]
  {
    hide Symbol, Lit, Capacity, SubRows, SamplesPerCell, RowsPerCell, GlyphAt;
    PlaceFits(plot, area, column, k);
    var subRows := SubRows(plot, area.height);
    var (x, y) := (column / SamplesPerCell(plot), (subRows - k) / RowsPerCell(plot));
    PlotFits(plot, area, x, y);
    assert GlyphAt(buf, area, x, y) == Drawn(Symbol(plot, heights, subRows, x, y));
    BlankIsUnlit(column % SamplesPerCell(plot), (subRows - k) % RowsPerCell(plot));
    FilledIffReached(plot, heights, subRows, column, k);
  }

  /** Every sample column and sub-row falls into a cell of the area. */
  lemma PlaceFits(plot: Plot, area: Area, column: nat, k: nat)
    requires column < Capacity(plot, area.width) && 1 <= k <= SubRows(plot, area.height)
    ensures Capacity(plot, area.width) % SamplesPerCell(plot) == 0
    ensures SubRows(plot, area.height) % RowsPerCell(plot) == 0
    ensures 0 <= column / SamplesPerCell(plot) < area.width
    ensures 0 <= (SubRows(plot, area.height) - k) / RowsPerCell(plot) < area.height
  {
  }

  lemma BlankIsUnlit(column: nat, row: nat)
    ensures !Lit(Blank, column, row)
  {
  }

  /** The sub-rows of a sample column filled on the buffer, up to `upTo` from the bottom. */
  function FilledCount(buf: array2<Cell>, area: Area, plot: Plot, column: nat, upTo: nat): nat
    requires Within(area, buf) && column < Capacity(plot, area.width) && upTo <= SubRows(plot, area.height)
    reads buf
  {
    if upTo == 0 then 0
    else FilledCount(buf, area, plot, column, upTo - 1) + if FilledOn(buf, area, plot, column, upTo) then 1 else 0
  }

  lemma {:induction false} FilledCountIsHeight(buf: array2<Cell>, area: Area, plot: Plot, heights: seq<nat>, column: nat,
                                               upTo: nat)
    requires Within(area, buf) && |heights| == Capacity(plot, area.width) && Draws(buf, area, plot, heights)
    requires column < Capacity(plot, area.width) && upTo <= SubRows(plot, area.height)
    ensures FilledCount(buf, area, plot, column, upTo) == Least(heights[column], upTo)
  {
    hide FilledOn, Draws;
    if upTo == 0 {
    } else {
      FilledCountIsHeight(buf, area, plot, heights, column, upTo - 1);
      FilledOnIffReached(buf, area, plot, heights, column, upTo);
    }
  }

  /**
   A rendered graph shows each of its newest readings at exactly the height it has, newest in the last column;
   columns older than the history are empty.
   */
  lemma RenderingIsLossless(g: Graph, buf: array2<Cell>, area: Area, age: nat)
    requires area.height > 0 && g.max > 0.0 && Within(area, buf) && age < Capacity(g.plot, area.width)
    requires Draws(buf, area, g.plot, Heights(g, Capacity(g.plot, area.width), SubRows(g.plot, area.height)))
    ensures var (columns, subRows) := (Capacity(g.plot, area.width), SubRows(g.plot, area.height));
            FilledCount(buf, area, g.plot, columns - 1 - age, subRows)
            == if age < |g.values| then HeightOf(g, g.values[|g.values| - 1 - age], subRows) else 0
  {
    var (columns, subRows) := (Capacity(g.plot, area.width), SubRows(g.plot, area.height));
    FilledCountIsHeight(buf, area, g.plot, Heights(g, columns, subRows), columns - 1 - age, subRows);
  }

  lemma QuotientsKeepOrder(v: real, w: real, d: real)
    requires d > 0.0 && v <= w
    ensures v / d <= w / d
  {
    var p, q := v / d, w / d;
    assert p * d == v && q * d == w;
    assert (q - p) * d == w - v;
    SignOfFactor(q - p, d);
  }

  lemma ProductsKeepOrder(v: real, w: real, m: real)
    requires m >= 0.0 && v <= w
    ensures v * m <= w * m
  {
  }

  lemma ScalingKeepsOrder(v: real, w: real, max: real, subRows: nat)
    requires max > 0.0 && v <= w
    ensures Scaled(v, max, subRows) <= Scaled(w, max, subRows)
    ensures Rounded(Scaled(v, max, subRows)) <= Rounded(Scaled(w, max, subRows))
  {
    QuotientsKeepOrder(v, w, max);
    ProductsKeepOrder(v / max, w / max, subRows as real);
    RoundingKeepsOrder(Scaled(v, max, subRows), Scaled(w, max, subRows));
  }

  lemma RoundingKeepsOrder(x: real, y: real)
    requires x <= y
    ensures Rounded(x) <= Rounded(y)
  {
  }

  lemma FullScale(max: real, subRows: nat)
    requires max > 0.0
    ensures Rounded(Scaled(max, max, subRows)) == subRows
  {
    assert max / max == 1.0;
    assert Scaled(max, max, subRows) == subRows as real;
  }

  /** A higher reading is never drawn lower, and one at or above full scale fills its column. */
  lemma HeightsFollowReadings(g: Graph, v: real, w: real, subRows: nat)
    requires g.max > 0.0 && subRows > 0 && v <= w
    ensures HeightOf(g, Finite(v), subRows) <= HeightOf(g, Finite(w), subRows)
    ensures w >= g.max ==> HeightOf(g, Finite(w), subRows) == subRows
  {
    hide Rounded, Scaled;
    ScalingKeepsOrder(v, w, g.max, subRows);
    FullScale(g.max, subRows);
    if w >= g.max {
      ScalingKeepsOrder(g.max, w, g.max, subRows);
    }
  }

  lemma RoundedIsNearest(x: real)
    ensures -0.5 < Rounded(x) as real - x <= 0.5
  {
  }

  /** Within the scale a height is the nearest whole number of sub-rows, but never none. */
  lemma HeightIsNearest(g: Graph, v: real, subRows: nat)
    requires g.max > 0.0 && subRows > 0 && 0.0 < v <= g.max
    ensures var exact, h := Scaled(v, g.max, subRows), HeightOf(g, Finite(v), subRows);
            if exact < 0.5 then h == 1 else -0.5 < h as real - exact <= 0.5
  {
    hide Rounded, Scaled;
    ScalingKeepsOrder(v, g.max, g.max, subRows);
    FullScale(g.max, subRows);
    RoundedIsNearest(Scaled(v, g.max, subRows));
  }
}
