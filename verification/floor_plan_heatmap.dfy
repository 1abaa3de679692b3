/** src/components/FloorPlanHeatmap.tsx: the rasterised heatmap drawn over a
    floor plan. The plan is cut into 10 x 10 cells; a cell is painted with the
    colour of the strength interpolated at its centre, and left out when no
    sample is within range of that centre. */
module FloorPlanHeatmap {
  import opened Wrappers
  import opened HeatmapTypes
  import HeatmapUtils
  import Colors

  const CellSize: real := 10.0
  const CellOpacity: real := 0.7
  const DotRadius: real := 3.0

  /** One `Rect`; its React key `${x}-${y}` is the pair `(col, row)`. */
  datatype Cell = Cell(col: nat, row: nat, x: real, y: real, width: real, height: real, fill: string, opacity: real)

  /** One `Circle` marking a sample. */
  datatype Dot = Dot(cx: real, cy: real, r: real)

  datatype Overlay = Overlay(cells: seq<Cell>, dots: seq<Dot>)

  /** Presses are forwarded only in marking mode. */
  function HandlePress(isMarkingMode: bool, location: Point): (forwarded: Option<Point>)
    ensures forwarded.Some? <==> isMarkingMode
    ensures forwarded.Some? ==> forwarded.value == location
  {
    if isMarkingMode then Some(location) else None
  }

  /** `Math.floor(extent / cellSize)`: the number of whole cells along one side
      (negative or zero when the extent is). */
  function CellCount(extent: real): (n: int)
    ensures n as real * CellSize <= extent < (n + 1) as real * CellSize
  {
    (extent / CellSize).Floor
  }

  function Centre(col: nat, row: nat): Point
  {
    Point((col as real + 0.5) * CellSize, (row as real + 0.5) * CellSize)
  }

  /** The strength interpolated at the centre of a cell. */
  function CentreStrength(sqrt: real -> real, pts: seq<HeatmapDataPoint>, col: nat, row: nat): Option<real>
    requires HeatmapUtils.IsSqrt(sqrt)
  {
    HeatmapUtils.Interpolate(sqrt, Centre(col, row), pts)
  }

  /** The centre of the cell has an interpolated strength. */
  predicate Covered(sqrt: real -> real, pts: seq<HeatmapDataPoint>, col: nat, row: nat)
    requires HeatmapUtils.IsSqrt(sqrt)
  {
    CentreStrength(sqrt, pts, col, row).Some?
  }

  /** A cell is covered exactly when some sample lies within range of its
      centre. */
  lemma CoveredIffSampleInRange(sqrt: real -> real, pts: seq<HeatmapDataPoint>, col: nat, row: nat)
    requires HeatmapUtils.IsSqrt(sqrt)
    ensures Covered(sqrt, pts, col, row) <==>
              exists i :: 0 <= i < |pts| && HeatmapUtils.InRange(sqrt, Centre(col, row), pts[i])
  {
  }

  /** A painted cell: its square, its colour, its opacity. */
  predicate WellFormed(sqrt: real -> real, pts: seq<HeatmapDataPoint>, c: Cell)
    requires HeatmapUtils.IsSqrt(sqrt)
  {
    var s := CentreStrength(sqrt, pts, c.col, c.row);
    && s.Some?
    && c.x == c.col as real * CellSize && c.y == c.row as real * CellSize
    && c.width == CellSize && c.height == CellSize
    && c.fill == HeatmapUtils.ColorForSignalStrength(s.value)
    && c.opacity == CellOpacity
  }

  /** Row-major order of the keys. */
  predicate Before(a: Cell, b: Cell)
  {
    a.row < b.row || (a.row == b.row && a.col < b.col)
  }

  predicate Emitted(cells: seq<Cell>, col: nat, row: nat)
  {
    exists i :: 0 <= i < |cells| && cells[i].col == col && cells[i].row == row
  }

  lemma EmittedAppend(a: seq<Cell>, b: seq<Cell>, col: nat, row: nat)
    ensures Emitted(a, col, row) || Emitted(b, col, row) ==> Emitted(a + b, col, row)
  {
    if Emitted(a, col, row) {
      var i :| 0 <= i < |a| && a[i].col == col && a[i].row == row;
      assert (a + b)[i] == a[i];
    } else if Emitted(b, col, row) {
      var i :| 0 <= i < |b| && b[i].col == col && b[i].row == row;
      assert (a + b)[|a| + i] == b[i];
    }
  }

  /** The cell at `(col, row)`, if its centre is covered. */
  function CellAt(sqrt: real -> real, pts: seq<HeatmapDataPoint>, col: nat, row: nat, strength: Option<real>): (c: Option<Cell>)
    requires HeatmapUtils.IsSqrt(sqrt)
    requires strength == CentreStrength(sqrt, pts, col, row)
    ensures c.Some? <==> Covered(sqrt, pts, col, row)
    ensures c.Some? ==> WellFormed(sqrt, pts, c.value) && c.value.col == col && c.value.row == row
  {
    if strength.Some? then
      Some(Cell(col, row, col as real * CellSize, row as real * CellSize, CellSize, CellSize,
                HeatmapUtils.ColorForSignalStrength(strength.value), CellOpacity))
    else None
  }

  /** What the inner loop has built after the first `x` columns of `row`:
      well-formed cells of that row, left to right, one for every covered
      column. */
  ghost predicate RowSoFar(sqrt: real -> real, pts: seq<HeatmapDataPoint>, row: nat, x: int, cells: seq<Cell>)
    requires HeatmapUtils.IsSqrt(sqrt)
  {
    && (forall i :: 0 <= i < |cells| ==> WellFormed(sqrt, pts, cells[i]) && cells[i].row == row && cells[i].col < x)
    && (forall i, j :: 0 <= i < j < |cells| ==> cells[i].col < cells[j].col)
    && (forall col: nat :: col < x && Covered(sqrt, pts, col, row) ==> Emitted(cells, col, row))
  }

  /** One column more: the cell of column `x`, if any, goes at the end. */
  lemma RowStep(sqrt: real -> real, pts: seq<HeatmapDataPoint>, row: nat, x: nat, cells: seq<Cell>, cell: Option<Cell>)
    requires HeatmapUtils.IsSqrt(sqrt)
    requires RowSoFar(sqrt, pts, row, x, cells)
    requires cell == CellAt(sqrt, pts, x, row, CentreStrength(sqrt, pts, x, row))
    ensures RowSoFar(sqrt, pts, row, x + 1, if cell.Some? then cells + [cell.value] else cells)
  {
    if cell.Some? {
      var next := cells + [cell.value];
      forall col: nat | col <= x && Covered(sqrt, pts, col, row)
        ensures Emitted(next, col, row)
      {
        if col < x {
          EmittedAppend(cells, [cell.value], col, row);
        } else {
          assert next[|cells|] == cell.value;
        }
      }
    }
  }

  function NonNegative(n: int): nat
  {
    if n < 0 then 0 else n
  }

  /** The inner loop of `renderHeatmap`: the painted cells of one row. */
  method RenderRow(sqrt: real -> real, pts: seq<HeatmapDataPoint>, row: nat, columns: int) returns (cells: seq<Cell>)
    requires HeatmapUtils.IsSqrt(sqrt)
    ensures forall i :: 0 <= i < |cells| ==>
              WellFormed(sqrt, pts, cells[i]) && cells[i].row == row && cells[i].col < columns
    ensures forall i, j :: 0 <= i < j < |cells| ==> cells[i].col < cells[j].col
    ensures forall col: nat :: col < columns && Covered(sqrt, pts, col, row) ==> Emitted(cells, col, row)
    ensures |cells| <= NonNegative(columns)
  {
    cells := [];
    var x := 0;
    while x < columns
      invariant 0 <= x <= NonNegative(columns)
      invariant |cells| <= x
      invariant RowSoFar(sqrt, pts, row, x, cells)
    {
      var centre := Centre(x, row);
      var strength := HeatmapUtils.InterpolateSignalStrength(sqrt, centre.x, centre.y, pts);
      var cell := CellAt(sqrt, pts, x, row, strength);
      RowStep(sqrt, pts, row, x, cells, cell);
      if cell.Some? {
        cells := cells + [cell.value];
      }
      x := x + 1;
    }
  }

  /** `renderHeatmap`: nothing without samples; otherwise the painted cells in
      row-major order and one dot per sample. */
  method RenderHeatmap(sqrt: real -> real, dims: Dimensions, heatmapData: seq<HeatmapDataPoint>)
    returns (overlay: Option<Overlay>)
    requires HeatmapUtils.IsSqrt(sqrt)
    ensures overlay.None? <==> |heatmapData| == 0
    ensures overlay.Some? ==>
              var cells := overlay.value.cells;
              && (forall i :: 0 <= i < |cells| ==>
                    && WellFormed(sqrt, heatmapData, cells[i])
                    && cells[i].x + cells[i].width <= dims.width
                    && cells[i].y + cells[i].height <= dims.height)
              && (forall i, j :: 0 <= i < j < |cells| ==> Before(cells[i], cells[j]))
              && |cells| <= NonNegative(CellCount(dims.width)) * NonNegative(CellCount(dims.height))
              && (forall col: nat, row: nat ::
                    col < CellCount(dims.width) && row < CellCount(dims.height) ==>
                    (Emitted(cells, col, row) <==> Covered(sqrt, heatmapData, col, row)))
    ensures overlay.Some? ==>
              && |overlay.value.dots| == |heatmapData|
              && forall i :: 0 <= i < |heatmapData| ==>
                   overlay.value.dots[i] == Dot(heatmapData[i].x, heatmapData[i].y, DotRadius)
  {
    if |heatmapData| == 0 {
      return None;
    }
    var columns := CellCount(dims.width);
    var rows := CellCount(dims.height);
    var cells: seq<Cell> := [];
    var y := 0;
    while y < rows
      invariant 0 <= y <= NonNegative(rows)
      invariant |cells| <= y * NonNegative(columns)
      invariant forall i :: 0 <= i < |cells| ==>
                  WellFormed(sqrt, heatmapData, cells[i]) && cells[i].row < y && cells[i].col < columns
      invariant forall i, j :: 0 <= i < j < |cells| ==> Before(cells[i], cells[j])
      invariant forall col: nat, row: nat :: col < columns && row < y && Covered(sqrt, heatmapData, col, row) ==>
                  Emitted(cells, col, row)
    {
      var rowCells := RenderRow(sqrt, heatmapData, y, columns);
      forall col: nat, row: nat | col < columns && row <= y && Covered(sqrt, heatmapData, col, row)
        ensures Emitted(cells + rowCells, col, row)
      {
        EmittedAppend(cells, rowCells, col, row);
      }
      cells := cells + rowCells;
      y := y + 1;
    }
    forall i | 0 <= i < |cells|
      ensures cells[i].x + cells[i].width <= dims.width && cells[i].y + cells[i].height <= dims.height
    {
      assert (cells[i].col + 1) as real * CellSize <= columns as real * CellSize;
      assert (cells[i].row + 1) as real * CellSize <= rows as real * CellSize;
    }
    forall col: nat, row: nat | col < columns && row < rows && Emitted(cells, col, row)
      ensures Covered(sqrt, heatmapData, col, row)
    {
      var i :| 0 <= i < |cells| && cells[i].col == col && cells[i].row == row;
      assert CentreStrength(sqrt, heatmapData, col, row).Some?;
    }
    var dots := seq(|heatmapData|, i requires 0 <= i < |heatmapData| => Dot(heatmapData[i].x, heatmapData[i].y, DotRadius));
    overlay := Some(Overlay(cells, dots));
  }

  /** A cell whose in-range samples all read above -51 dBm is painted in the
      strong colour; one whose in-range samples all read at or below -72 dBm,
      in the weak colour. */
  lemma CellColourFromSamples(sqrt: real -> real, pts: seq<HeatmapDataPoint>, c: Cell, lo: real, hi: real)
    requires HeatmapUtils.IsSqrt(sqrt)
    requires WellFormed(sqrt, pts, c)
    requires forall i :: 0 <= i < |pts| && HeatmapUtils.InRange(sqrt, Centre(c.col, c.row), pts[i]) ==>
               lo <= pts[i].strength <= hi
    ensures lo > -51.0 ==> c.fill == Colors.StrongColor
    ensures hi <= -72.0 ==> c.fill == Colors.WeakColor
  {
    HeatmapUtils.InterpolateBounded(sqrt, Centre(c.col, c.row), pts, lo, hi);
  }
}
