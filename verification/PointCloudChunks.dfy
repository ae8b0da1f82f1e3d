/**
 Splitting an extent into gridding chunks: plan_grid_chunks of tools/pointcloud-worker/runner.py:807-868,
 with real coordinates.
 */
module PointCloudChunks {
  import opened Prelude

  datatype Box = Box(x0: real, y0: real, x1: real, y1: real)

  datatype Chunk = Chunk(core: Box, buffered: Box)

  datatype Result = Planned(chunks: seq<Chunk>) | BudgetTooSmall

  const MIN_EDGE: int := 256

  function Ceil(x: real): (c: int)
    ensures c as real - 1.0 < x <= c as real
  {
    -((0.0 - x).Floor)
  }

  /** math.isqrt. */
  function ISqrt(n: nat): (r: nat)
    ensures r * r <= n < (r + 1) * (r + 1)
  {
    if n == 0 then 0
    else
      var r := ISqrt(n - 1);
      if (r + 1) * (r + 1) <= n then r + 1 else r
  }

  /** math.ceil(a / b) on positive integers. */
  function CeilDiv(a: nat, b: nat): (q: nat)
    requires b > 0
    ensures a <= q * b && (q > 0 ==> (q - 1) * b < a)
  {
    if a == 0 then 0
    else
      assert (a - 1) / b * b <= a - 1 < ((a - 1) / b + 1) * b;
      (a - 1) / b + 1
  }

  function RMin(a: real, b: real): real {
    if a <= b then a else b
  }

  function RMax(a: real, b: real): real {
    if a >= b then a else b
  }

  /** `n` steps of size `x`. */
  function Times(n: int, x: real): real {
    n as real * x
  }

  lemma TimesNext(n: int, x: real)
    ensures Times(n + 1, x) == Times(n, x) + x
  {
  }

  lemma TimesGrow(m: int, n: int, x: real)
    requires m <= n && x >= 0.0
    ensures Times(m, x) <= Times(n, x)
  {
    assert (n - m) as real * x >= 0.0;
    assert n as real * x == m as real * x + (n - m) as real * x;
  }

  lemma TimesNothing(x: real)
    ensures Times(0, x) == 0.0
  {
  }

  lemma TimesProduct(m: int, n: int, x: real)
    ensures Times(m * n, x) == Times(m, Times(n, x))
  {
    assert (m * n) as real == m as real * n as real;
  }

  lemma TimesSum(m: int, n: int, x: real)
    ensures Times(m + n, x) == Times(m, x) + Times(n, x)
  {
  }

  function Cells(lo: real, hi: real, resolution: real): (n: nat)
    requires resolution > 0.0
  {
    Max(1, Ceil((hi - lo) / resolution))
  }

  // ---------------------------------------------------------------- one axis

  /** One axis cut every `step` from its lower end. */
  datatype Axis = Axis(min: real, max: real, step: real, n: nat)

  function Lo(a: Axis, i: nat): real {
    a.min + Times(i, a.step)
  }

  function Hi(a: Axis, i: nat): real {
    RMin(a.max, Lo(a, i + 1))
  }

  /** n is the number of steps that reach over the whole axis. */
  predicate Fits(a: Axis) {
    && a.step > 0.0 && a.n > 0
    && Times(a.n - 1, a.step) < a.max - a.min <= Times(a.n, a.step)
  }

  lemma StepsGrow(a: Axis, i: nat, j: nat)
    requires a.step > 0.0 && i <= j
    ensures Lo(a, i) <= Lo(a, j)
    ensures Lo(a, i) + a.step == Lo(a, i + 1)
  {
    hide Times;
    TimesGrow(i, j, a.step);
    TimesNext(i, a.step);
  }

  /** Every cut is a proper interval, and the next one starts where it ends. */
  lemma Abut(a: Axis, i: nat)
    requires Fits(a) && i < a.n
    ensures Lo(a, i) < Hi(a, i) <= Lo(a, i) + a.step
    ensures Hi(a, i) == if i + 1 == a.n then a.max else Lo(a, i + 1)
  {
    hide Times;
    StepsGrow(a, i, a.n - 1);
    StepsGrow(a, a.n - 1, a.n);
    if i + 1 < a.n {
      StepsGrow(a, i + 1, a.n - 1);
    }
  }

  predicate At(a: Axis, i: nat, x: real) {
    i < a.n && Lo(a, i) <= x < Hi(a, i)
  }

  lemma {:induction false} CutAt(a: Axis, x: real, n: nat) returns (i: nat)
    requires Fits(a) && n < a.n && Lo(a, 0) <= x && x < Hi(a, n)
    ensures At(a, i, x)
  {
    hide Times;
    if Lo(a, n) <= x {
      i := n;
    } else {
      assert n > 0;
      Abut(a, n - 1);
      i := CutAt(a, x, n - 1);
    }
  }

  lemma Covered(a: Axis, x: real) returns (i: nat)
    requires Fits(a) && a.min <= x < a.max
    ensures At(a, i, x)
  {
    TimesNothing(a.step);
    Abut(a, a.n - 1);
    i := CutAt(a, x, a.n - 1);
  }

  lemma OneCut(a: Axis, x: real, i: nat, j: nat)
    requires Fits(a) && At(a, i, x) && At(a, j, x)
    ensures i == j
  {
    hide Times;
    if i < j {
      StepsGrow(a, i + 1, j);
    } else if j < i {
      StepsGrow(a, j + 1, i);
    }
  }

  // ---------------------------------------------------------------- the plan

  datatype Grid = Grid(x: Axis, y: Axis, buf: real)

  function Extent(g: Grid): Box {
    Box(g.x.min, g.y.min, g.x.max, g.y.max)
  }

  function Core(g: Grid, ix: nat, iy: nat): Box {
    Box(Lo(g.x, ix), Lo(g.y, iy), Hi(g.x, ix), Hi(g.y, iy))
  }

  function Buffered(g: Grid, core: Box): Box {
    Box(RMax(g.x.min, core.x0 - g.buf), RMax(g.y.min, core.y0 - g.buf),
        RMin(g.x.max, core.x1 + g.buf), RMin(g.y.max, core.y1 + g.buf))
  }

  predicate IsProper(box: Box) {
    box.x0 < box.x1 && box.y0 < box.y1
  }

  function ChunkOf(g: Grid, ix: nat, iy: nat): seq<Chunk> {
    var core := Core(g, ix, iy);
    if IsProper(core) then [Chunk(core, Buffered(g, core))] else []
  }

  function RowOf(g: Grid, ix: nat, iy: nat): seq<Chunk> {
    if ix == 0 then [] else RowOf(g, ix - 1, iy) + ChunkOf(g, ix - 1, iy)
  }

  function RowsOf(g: Grid, iy: nat): seq<Chunk> {
    if iy == 0 then [] else RowsOf(g, iy - 1) + RowOf(g, g.x.n, iy - 1)
  }

  function GridOf(extent: Box, resolution: real, edge: nat, bufferCells: nat): Grid
    requires resolution > 0.0 && edge > 0
  {
    var step := Times(edge, resolution);
    Grid(Axis(extent.x0, extent.x1, step, CeilDiv(Cells(extent.x0, extent.x1, resolution), edge)),
         Axis(extent.y0, extent.y1, step, CeilDiv(Cells(extent.y0, extent.y1, resolution), edge)),
         Times(bufferCells, resolution))
  }

  predicate FitsOneChunk(extent: Box, resolution: real, cellBudget: nat)
    requires resolution > 0.0
  {
    Cells(extent.x0, extent.x1, resolution) * Cells(extent.y0, extent.y1, resolution) <= cellBudget
  }

  function Edge(cellBudget: nat, bufferCells: nat): int {
    ISqrt(cellBudget) - 2 * bufferCells
  }

  /** `min + i * edge * resolution`. */
  function Offset(min: real, i: nat, edge: nat, resolution: real): real {
    min + i as real * edge as real * resolution
  }

  lemma OffsetIsLo(a: Axis, i: nat, edge: nat, resolution: real)
    requires a.step == Times(edge, resolution)
    ensures Offset(a.min, i, edge, resolution) == Lo(a, i)
  {
    assert i as real * edge as real * resolution == i as real * (edge as real * resolution);
  }

  /** The body of the inner loop: at most one chunk, none for an empty core. */
  method PlanChunk(extent: Box, resolution: real, edge: nat, buf: real, ix: nat, iy: nat, ghost g: Grid) returns (chunks: seq<Chunk>)
    requires g.x.step == g.y.step == Times(edge, resolution) && Extent(g) == extent && g.buf == buf
    ensures chunks == ChunkOf(g, ix, iy)
  {
    OffsetIsLo(g.x, ix, edge, resolution);
    OffsetIsLo(g.y, iy, edge, resolution);
    OffsetIsLo(g.x, ix + 1, edge, resolution);
    OffsetIsLo(g.y, iy + 1, edge, resolution);
    hide Offset, Lo;
    var cx0 := Offset(extent.x0, ix, edge, resolution);
    var cy0 := Offset(extent.y0, iy, edge, resolution);
    var cx1 := RMin(extent.x1, Offset(extent.x0, ix + 1, edge, resolution));
    var cy1 := RMin(extent.y1, Offset(extent.y0, iy + 1, edge, resolution));
    if cx1 <= cx0 || cy1 <= cy0 {
      return [];
    }
    chunks := [Chunk(Box(cx0, cy0, cx1, cy1),
                     Box(RMax(extent.x0, cx0 - buf), RMax(extent.y0, cy0 - buf), RMin(extent.x1, cx1 + buf), RMin(extent.y1, cy1 + buf)))];
  }

  /** plan_grid_chunks: nested loops that append to `chunks`. A resolution of zero divides by zero. */
  method PlanGridChunks(extent: Box, resolution: real, cellBudget: nat, bufferCells: nat) returns (r: Result)
    requires resolution > 0.0
    ensures FitsOneChunk(extent, resolution, cellBudget) ==> r == Planned([Chunk(extent, extent)])
    ensures !FitsOneChunk(extent, resolution, cellBudget) && Edge(cellBudget, bufferCells) < 256 ==> r == BudgetTooSmall
    ensures !FitsOneChunk(extent, resolution, cellBudget) && Edge(cellBudget, bufferCells) >= 256 ==>
              var g := GridOf(extent, resolution, Edge(cellBudget, bufferCells), bufferCells); r == Planned(RowsOf(g, g.y.n))
  {
    var cellsX := Cells(extent.x0, extent.x1, resolution);
    var cellsY := Cells(extent.y0, extent.y1, resolution);
    if cellsX * cellsY <= cellBudget {
      return Planned([Chunk(extent, extent)]);
    }
    var edge := ISqrt(cellBudget) - 2 * bufferCells;
    if edge < MIN_EDGE {
      return BudgetTooSmall;
    }
    var nx, ny := CeilDiv(cellsX, edge), CeilDiv(cellsY, edge);
    var buf := Times(bufferCells, resolution);
    ghost var g := GridOf(extent, resolution, edge, bufferCells);
    assert g.x.n == nx && g.y.n == ny;
    assert g.x.step == g.y.step == Times(edge, resolution) && Extent(g) == extent && g.buf == buf;
    var chunks := [];
    for iy := 0 to ny
      invariant chunks == RowsOf(g, iy)
    {
      hide GridOf, ChunkOf, Cells, CeilDiv, ISqrt;
      for ix := 0 to nx
        invariant chunks == RowsOf(g, iy) + RowOf(g, ix, iy)
      {
        var more := PlanChunk(extent, resolution, edge, buf, ix, iy, g);
        chunks := chunks + more;
      }
    }
    r := Planned(chunks);
  }

  // ---------------------------------------------------------------- the planned grid of a real extent

  /** Both axes of a planned grid are cut into as many steps as they need. */
  lemma PlannedAxisFits(lo: real, hi: real, resolution: real, edge: nat)
    requires resolution > 0.0 && edge > 0 && lo < hi
    ensures Fits(Axis(lo, hi, Times(edge, resolution), CeilDiv(Cells(lo, hi, resolution), edge)))
  {
    var cells := Cells(lo, hi, resolution);
    var n := CeilDiv(cells, edge);
    var width := (hi - lo) / resolution;
    assert width > 0.0 && width * resolution == hi - lo;
    assert cells as real - 1.0 < width <= cells as real;
    assert n > 0 && (n - 1) * edge <= cells - 1 && cells <= n * edge;
    hide Cells, CeilDiv;
    StepsReach(cells, edge, n, width, resolution);
  }

  lemma StepsReach(cells: nat, edge: nat, n: nat, width: real, resolution: real)
    requires resolution > 0.0 && edge > 0 && n > 0 && (n - 1) * edge <= cells - 1 && cells <= n * edge
    requires cells as real - 1.0 < width <= cells as real
    ensures Times(edge, resolution) > 0.0
    ensures Times(n - 1, Times(edge, resolution)) < width * resolution <= Times(n, Times(edge, resolution))
  {
    Scaled((n - 1) * edge, width, resolution);
    Scaled(n * edge, width, resolution);
    TimesProduct(n - 1, edge, resolution);
    TimesProduct(n, edge, resolution);
  }

  lemma Scaled(k: int, width: real, resolution: real)
    requires resolution > 0.0
    ensures k as real < width ==> Times(k, resolution) < width * resolution
    ensures width <= k as real ==> width * resolution <= Times(k, resolution)
  {
    var gap := width - k as real;
    assert width * resolution == gap * resolution + Times(k, resolution);
    assert gap > 0.0 ==> gap * resolution > 0.0;
    assert gap <= 0.0 ==> gap * resolution <= 0.0;
  }

  predicate IsPlanned(g: Grid) {
    Fits(g.x) && Fits(g.y) && g.buf >= 0.0
  }

  lemma ExtentIsPlanned(extent: Box, resolution: real, edge: nat, bufferCells: nat)
    requires resolution > 0.0 && edge > 0 && IsProper(extent)
    ensures IsPlanned(GridOf(extent, resolution, edge, bufferCells))
  {
    PlannedAxisFits(extent.x0, extent.x1, resolution, edge);
    PlannedAxisFits(extent.y0, extent.y1, resolution, edge);
    TimesNothing(resolution);
    TimesGrow(0, bufferCells, resolution);
  }

  // ---------------------------------------------------------------- row-major order, nothing skipped

  lemma {:induction false} RowAt(g: Grid, m: nat, iy: nat)
    requires IsPlanned(g) && m <= g.x.n && iy < g.y.n
    ensures |RowOf(g, m, iy)| == m
    ensures forall ix :: 0 <= ix < m ==> RowOf(g, m, iy)[ix] == Chunk(Core(g, ix, iy), Buffered(g, Core(g, ix, iy)))
  {
    if m > 0 {
      RowAt(g, m - 1, iy);
      Abut(g.x, m - 1);
      Abut(g.y, iy);
    }
  }

  /** Row-major position. */
  function Index(n: nat, ix: nat, iy: nat): nat {
    iy * n + ix
  }

  lemma {:induction false} RowsAt(g: Grid, m: nat, ix: nat, iy: nat)
    requires IsPlanned(g) && iy < m <= g.y.n && ix < g.x.n
    ensures |RowsOf(g, m)| == m * g.x.n
    ensures Index(g.x.n, ix, iy) < m * g.x.n
    ensures RowsOf(g, m)[Index(g.x.n, ix, iy)] == Chunk(Core(g, ix, iy), Buffered(g, Core(g, ix, iy)))
  {
    hide Lo, Hi, Times, Fits, RowOf, Buffered, Core;
    RowAt(g, g.x.n, m - 1);
    RowsLength(g, m);
    RowsLength(g, m - 1);
    assert m * g.x.n == (m - 1) * g.x.n + g.x.n;
    if iy < m - 1 {
      RowsAt(g, m - 1, ix, iy);
    }
  }

  lemma {:induction false} RowsLength(g: Grid, m: nat)
    requires IsPlanned(g) && m <= g.y.n
    ensures |RowsOf(g, m)| == m * g.x.n
  {
    if m > 0 {
      RowsLength(g, m - 1);
      RowAt(g, g.x.n, m - 1);
      assert m * g.x.n == (m - 1) * g.x.n + g.x.n;
    }
  }

  lemma ProductsGrow(a: nat, b: nat, c: nat)
    requires a <= b
    ensures a * c <= b * c
  {
    assert b * c == a * c + (b - a) * c;
  }

  lemma Position(n: nat, k: nat, m: nat) returns (ix: nat, iy: nat)
    requires k < m * n
    ensures ix < n && iy < m && k == Index(n, ix, iy)
  {
    assert n > 0;
    ix, iy := k % n, k / n;
    assert k == Index(n, ix, iy);
    if iy >= m {
      ProductsGrow(m, iy, n);
    }
  }

  // ---------------------------------------------------------------- the cores tile the extent

  predicate Inside(box: Box, x: real, y: real) {
    box.x0 <= x < box.x1 && box.y0 <= y < box.y1
  }

  predicate InCore(chunks: seq<Chunk>, k: int, x: real, y: real) {
    0 <= k < |chunks| && Inside(chunks[k].core, x, y)
  }

  /** Every point of the extent lies in exactly one core. */
  lemma CoresTileTheExtent(g: Grid, x: real, y: real)
    requires IsPlanned(g) && Inside(Extent(g), x, y)
    ensures exists k :: InCore(RowsOf(g, g.y.n), k, x, y)
    ensures forall j, k :: InCore(RowsOf(g, g.y.n), j, x, y) && InCore(RowsOf(g, g.y.n), k, x, y) ==> j == k
  {
    var chunks := RowsOf(g, g.y.n);
    RowsLength(g, g.y.n);
    var ix := Covered(g.x, x);
    var iy := Covered(g.y, y);
    hide Times, Lo, Hi, Fits, RowsOf, Index;
    RowsAt(g, g.y.n, ix, iy);
    assert InCore(chunks, Index(g.x.n, ix, iy), x, y);
    forall j | InCore(chunks, j, x, y) ensures j == Index(g.x.n, ix, iy) {
      CoreWith(g, j, x, y, ix, iy);
    }
  }

  lemma CoreWith(g: Grid, j: nat, x: real, y: real, ix: nat, iy: nat)
    requires IsPlanned(g) && j < |RowsOf(g, g.y.n)| && Inside(RowsOf(g, g.y.n)[j].core, x, y)
    requires At(g.x, ix, x) && At(g.y, iy, y)
    ensures j == Index(g.x.n, ix, iy)
  {
    RowsLength(g, g.y.n);
    var jx, jy := Position(g.x.n, j, g.y.n);
    RowsAt(g, g.y.n, jx, jy);
    OneCut(g.x, x, ix, jx);
    OneCut(g.y, y, iy, jy);
  }

  // ---------------------------------------------------------------- each chunk

  predicate Contains(outer: Box, inner: Box) {
    outer.x0 <= inner.x0 && inner.x1 <= outer.x1 && outer.y0 <= inner.y0 && inner.y1 <= outer.y1
  }

  /** The k-th line of the pixel lattice. */
  function Line(from: real, k: nat, resolution: real): real {
    from + Times(k, resolution)
  }

  ghost predicate OnLattice(at: real, from: real, resolution: real) {
    exists k: nat :: at == Line(from, k, resolution)
  }

  predicate Spans(lo: real, hi: real, resolution: real, cells: int)
    requires resolution > 0.0
  {
    Ceil((hi - lo) / resolution) <= cells
  }

  lemma SpanBound(lo: real, hi: real, resolution: real, cells: nat)
    requires resolution > 0.0 && hi - lo <= Times(cells, resolution)
    ensures Spans(lo, hi, resolution, cells)
  {
    var width := (hi - lo) / resolution;
    assert width * resolution == hi - lo;
    if width > cells as real {
      assert (width - cells as real) * resolution > 0.0;
    }
  }

  lemma LatticeEdge(a: Axis, i: nat, edge: nat, resolution: real)
    requires a.step == Times(edge, resolution)
    ensures OnLattice(Lo(a, i), a.min, resolution)
  {
    hide Times;
    TimesProduct(i, edge, resolution);
    assert Lo(a, i) == Line(a.min, i * edge, resolution);
  }

  /** An upper edge is on the lattice too, unless it is the last one and the extent's own end is not. */
  lemma UpperEdgeOnLatticeIff(a: Axis, i: nat, edge: nat, resolution: real)
    requires Fits(a) && i < a.n && a.step == Times(edge, resolution)
    ensures OnLattice(Hi(a, i), a.min, resolution) <==> i + 1 < a.n || OnLattice(a.max, a.min, resolution)
  {
    Abut(a, i);
    LatticeEdge(a, i + 1, edge, resolution);
  }

  /** So an extent half a cell longer than a whole number of cells ends off the lattice. */
  lemma HalfCellIsOffLattice(from: real, k: nat, resolution: real)
    requires resolution > 0.0
    ensures !OnLattice(from + Times(k, resolution) + resolution / 2.0, from, resolution)
  {
    if OnLattice(from + Times(k, resolution) + resolution / 2.0, from, resolution) {
      var m: nat :| from + Times(k, resolution) + resolution / 2.0 == Line(from, m, resolution);
      TimesNext(k, resolution);
      if m <= k {
        TimesGrow(m, k, resolution);
      } else {
        TimesGrow(k + 1, m, resolution);
      }
    }
  }

  /** Each chunk of a plan: the core is proper, lies in its buffered box, which stays inside the extent
      and spans at most `edge + 2 * buffer` cells each way; the lower edges sit on the shared lattice. */
  lemma ChunkIsSound(extent: Box, resolution: real, edge: nat, bufferCells: nat, k: nat)
    requires resolution > 0.0 && edge > 0 && IsProper(extent)
    requires var g := GridOf(extent, resolution, edge, bufferCells); k < |RowsOf(g, g.y.n)|
    ensures var g := GridOf(extent, resolution, edge, bufferCells);
            var c := RowsOf(g, g.y.n)[k];
            && IsProper(c.core) && Contains(c.buffered, c.core) && Contains(extent, c.buffered)
            && OnLattice(c.core.x0, extent.x0, resolution) && OnLattice(c.core.y0, extent.y0, resolution)
            && Spans(c.buffered.x0, c.buffered.x1, resolution, edge + 2 * bufferCells)
            && Spans(c.buffered.y0, c.buffered.y1, resolution, edge + 2 * bufferCells)
  {
    var g := GridOf(extent, resolution, edge, bufferCells);
    ExtentIsPlanned(extent, resolution, edge, bufferCells);
    RowsLength(g, g.y.n);
    var ix, iy := Position(g.x.n, k, g.y.n);
    RowsAt(g, g.y.n, ix, iy);
    ChunkFacts(g, ix, iy, edge, resolution, bufferCells);
  }

  /** One axis of one chunk. */
  lemma AxisFacts(a: Axis, i: nat, edge: nat, resolution: real, bufferCells: nat, buf: real)
    requires resolution > 0.0 && Fits(a) && i < a.n && a.step == Times(edge, resolution) && buf == Times(bufferCells, resolution)
    ensures Lo(a, i) < Hi(a, i) && OnLattice(Lo(a, i), a.min, resolution)
    ensures a.min <= RMax(a.min, Lo(a, i) - buf) <= Lo(a, i) && Hi(a, i) <= RMin(a.max, Hi(a, i) + buf) <= a.max
    ensures Spans(RMax(a.min, Lo(a, i) - buf), RMin(a.max, Hi(a, i) + buf), resolution, edge + 2 * bufferCells)
  {
    Abut(a, i);
    StepsGrow(a, 0, i);
    TimesNothing(a.step);
    TimesNothing(resolution);
    LatticeEdge(a, i, edge, resolution);
    TimesGrow(0, bufferCells, resolution);
    TimesSum(edge, 2 * bufferCells, resolution);
    TimesSum(bufferCells, bufferCells, resolution);
    assert Lo(a, 0) == a.min;
    hide *;
    Grown(a.min, a.max, Lo(a, i), Hi(a, i), buf, a.step);
    SpanBound(RMax(a.min, Lo(a, i) - buf), RMin(a.max, Hi(a, i) + buf), resolution, edge + 2 * bufferCells);
  }

  lemma Grown(min: real, max: real, lo: real, hi: real, buf: real, step: real)
    requires min <= lo < hi <= max && hi <= lo + step && buf >= 0.0
    ensures min <= RMax(min, lo - buf) <= lo && hi <= RMin(max, hi + buf) <= max
    ensures RMin(max, hi + buf) - RMax(min, lo - buf) <= step + 2.0 * buf
  {
  }

  lemma ChunkFacts(g: Grid, ix: nat, iy: nat, edge: nat, resolution: real, bufferCells: nat)
    requires resolution > 0.0 && IsPlanned(g) && ix < g.x.n && iy < g.y.n
    requires g.x.step == g.y.step == Times(edge, resolution) && g.buf == Times(bufferCells, resolution)
    ensures var core := Core(g, ix, iy);
            var box := Buffered(g, core);
            && IsProper(core) && Contains(box, core) && Contains(Extent(g), box)
            && OnLattice(core.x0, g.x.min, resolution) && OnLattice(core.y0, g.y.min, resolution)
            && Spans(box.x0, box.x1, resolution, edge + 2 * bufferCells)
            && Spans(box.y0, box.y1, resolution, edge + 2 * bufferCells)
  {
    AxisFacts(g.x, ix, edge, resolution, bufferCells, g.buf);
    AxisFacts(g.y, iy, edge, resolution, bufferCells, g.buf);
    hide Lo, Hi, Fits, Spans, OnLattice, RMin, RMax;
  }

  /** A buffered box of a plan never holds more cells than the budget. */
  lemma BufferedFitsBudget(extent: Box, resolution: real, cellBudget: nat, bufferCells: nat, k: nat)
    requires resolution > 0.0 && IsProper(extent) && Edge(cellBudget, bufferCells) >= MIN_EDGE
    requires var g := GridOf(extent, resolution, Edge(cellBudget, bufferCells), bufferCells); k < |RowsOf(g, g.y.n)|
    ensures var g := GridOf(extent, resolution, Edge(cellBudget, bufferCells), bufferCells);
            var box := RowsOf(g, g.y.n)[k].buffered;
            Ceil((box.x1 - box.x0) / resolution) * Ceil((box.y1 - box.y0) / resolution) <= cellBudget
  {
    var edge := Edge(cellBudget, bufferCells);
    ChunkIsSound(extent, resolution, edge, bufferCells, k);
    var g := GridOf(extent, resolution, edge, bufferCells);
    var box := RowsOf(g, g.y.n)[k].buffered;
    var a, b := Ceil((box.x1 - box.x0) / resolution), Ceil((box.y1 - box.y0) / resolution);
    CeilPositive(box.x0, box.x1, resolution);
    CeilPositive(box.y0, box.y1, resolution);
    Products(a, b, ISqrt(cellBudget));
  }

  lemma CeilPositive(lo: real, hi: real, resolution: real)
    requires resolution > 0.0 && lo < hi
    ensures Ceil((hi - lo) / resolution) > 0
  {
    assert (hi - lo) / resolution > 0.0;
  }

  lemma Products(a: int, b: int, r: int)
    requires 0 < a <= r && 0 < b <= r
    ensures a * b <= r * r
  {
    ProductsGrow(a, r, b);
    ProductsGrow(b, r, r);
  }

  // ---------------------------------------------------------------- areas

  function Area(box: Box): real {
    Rect(box.x1 - box.x0, box.y1 - box.y0)
  }

  function Rect(width: real, height: real): real {
    width * height
  }

  function CoreArea(chunks: seq<Chunk>): real {
    if chunks == [] then 0.0 else CoreArea(chunks[..|chunks| - 1]) + Area(chunks[|chunks| - 1].core)
  }

  lemma {:induction false} AreaConcat(a: seq<Chunk>, b: seq<Chunk>)
    ensures CoreArea(a + b) == CoreArea(a) + CoreArea(b)
  {
    if b == [] {
      assert a + b == a;
    } else {
      assert (a + b)[..|a + b| - 1] == a + b[..|b| - 1];
      AreaConcat(a, b[..|b| - 1]);
    }
  }

  /** Where the first m cuts of an axis end. */
  function Reach(a: Axis, m: nat): real {
    if m == a.n then a.max else Lo(a, m)
  }

  lemma {:induction false} RowArea(g: Grid, m: nat, iy: nat)
    requires IsPlanned(g) && m <= g.x.n && iy < g.y.n
    ensures CoreArea(RowOf(g, m, iy)) == Rect(Reach(g.x, m) - g.x.min, Hi(g.y, iy) - Lo(g.y, iy))
  {
    hide Fits, Lo, Hi, Rect, ChunkOf, Reach, Times;
    var height := Hi(g.y, iy) - Lo(g.y, iy);
    if m > 0 {
      RowArea(g, m - 1, iy);
      AreaConcat(RowOf(g, m - 1, iy), ChunkOf(g, m - 1, iy));
      ChunkArea(g, m - 1, iy);
      Distribute(Reach(g.x, m - 1) - g.x.min, Reach(g.x, m) - Reach(g.x, m - 1), height);
    } else {
      StartsEmpty(g.x, height);
    }
  }

  lemma ChunkArea(g: Grid, ix: nat, iy: nat)
    requires IsPlanned(g) && ix < g.x.n && iy < g.y.n
    ensures CoreArea(ChunkOf(g, ix, iy)) == Rect(Reach(g.x, ix + 1) - Reach(g.x, ix), Hi(g.y, iy) - Lo(g.y, iy))
  {
    Abut(g.x, ix);
    Abut(g.y, iy);
    hide Fits, Lo, Rect, Buffered, Times;
    OneArea(Chunk(Core(g, ix, iy), Buffered(g, Core(g, ix, iy))));
  }

  lemma StartsEmpty(a: Axis, height: real)
    requires Fits(a)
    ensures Reach(a, 0) == a.min && Rect(Reach(a, 0) - a.min, height) == 0.0 == Rect(height, Reach(a, 0) - a.min)
  {
  }

  lemma OneArea(c: Chunk)
    ensures CoreArea([c]) == Area(c.core)
  {
    assert [c][..0] == [];
  }

  lemma Distribute(a: real, b: real, h: real)
    ensures Rect(a, h) + Rect(b, h) == Rect(a + b, h)
    ensures Rect(h, a) + Rect(h, b) == Rect(h, a + b)
  {
  }

  lemma {:induction false} RowsArea(g: Grid, m: nat)
    requires IsPlanned(g) && m <= g.y.n
    ensures CoreArea(RowsOf(g, m)) == Rect(g.x.max - g.x.min, Reach(g.y, m) - g.y.min)
  {
    hide Fits, Lo, Rect, Times, RowOf;
    var width := g.x.max - g.x.min;
    if m > 0 {
      RowsArea(g, m - 1);
      AreaConcat(RowsOf(g, m - 1), RowOf(g, g.x.n, m - 1));
      RowArea(g, g.x.n, m - 1);
      Abut(g.y, m - 1);
      Distribute(Reach(g.y, m - 1) - g.y.min, Reach(g.y, m) - Reach(g.y, m - 1), width);
    } else {
      StartsEmpty(g.y, width);
    }
  }

  /** The cores' areas sum to the extent's. */
  lemma AreasSum(g: Grid)
    requires IsPlanned(g)
    ensures CoreArea(RowsOf(g, g.y.n)) == Area(Extent(g))
  {
    RowsArea(g, g.y.n);
    hide Rect, Fits, Lo;
  }

  // ---------------------------------------------------------------- extents without an area

  lemma {:induction false} FlatRow(g: Grid, m: nat, iy: nat)
    requires !IsProper(Extent(g)) && g.x.step > 0.0 && g.y.step > 0.0
    ensures RowOf(g, m, iy) == []
  {
    if m > 0 {
      FlatRow(g, m - 1, iy);
      StepsGrow(g.x, 0, m - 1);
      StepsGrow(g.y, 0, iy);
    }
  }

  lemma {:induction false} FlatRows(g: Grid, m: nat)
    requires !IsProper(Extent(g)) && g.x.step > 0.0 && g.y.step > 0.0
    ensures RowsOf(g, m) == []
  {
    if m > 0 {
      FlatRows(g, m - 1);
      FlatRow(g, g.x.n, m - 1);
    }
  }

  /** An over-budget plan is empty exactly when the extent has no area; otherwise no chunk is skipped
      and there is one per cell of the chunk grid. */
  lemma EmptyPlanIffFlat(extent: Box, resolution: real, edge: nat, bufferCells: nat)
    requires resolution > 0.0 && edge > 0
    ensures var g := GridOf(extent, resolution, edge, bufferCells);
            && (RowsOf(g, g.y.n) == [] <==> !IsProper(extent))
            && (IsProper(extent) ==> |RowsOf(g, g.y.n)| == g.y.n * g.x.n)
  {
    var g := GridOf(extent, resolution, edge, bufferCells);
    assert Times(edge, resolution) > 0.0;
    if IsProper(extent) {
      ExtentIsPlanned(extent, resolution, edge, bufferCells);
      RowsLength(g, g.y.n);
      assert g.y.n * g.x.n > 0;
    } else {
      FlatRows(g, g.y.n);
    }
  }

  // ---------------------------------------------------------------- the choices of the plan

  /** The least number of cells, at least one, that reaches over a width. */
  predicate IsCellCount(n: nat, lo: real, hi: real, resolution: real) {
    n >= 1 && hi - lo <= Times(n, resolution) && (n > 1 ==> Times(n - 1, resolution) < hi - lo)
  }

  lemma CellsMean(lo: real, hi: real, resolution: real)
    requires resolution > 0.0
    ensures IsCellCount(Cells(lo, hi, resolution), lo, hi, resolution)
  {
    var n := Cells(lo, hi, resolution);
    var width := (hi - lo) / resolution;
    assert width * resolution == hi - lo;
    Scaled(n, width, resolution);
    Scaled(n - 1, width, resolution);
  }

  lemma CountIsUnique(m: nat, n: nat, lo: real, hi: real, resolution: real)
    requires resolution > 0.0 && IsCellCount(m, lo, hi, resolution) && IsCellCount(n, lo, hi, resolution)
    ensures m == n
  {
    hide Times;
    if m < n {
      TimesGrow(m, n - 1, resolution);
    } else if n < m {
      TimesGrow(n, m - 1, resolution);
    }
  }

  /** An extent stays in one piece exactly when its cells are within the budget. */
  lemma OneChunkMeans(extent: Box, resolution: real, cellBudget: nat, nx: nat, ny: nat)
    requires resolution > 0.0 && IsCellCount(nx, extent.x0, extent.x1, resolution) && IsCellCount(ny, extent.y0, extent.y1, resolution)
    ensures FitsOneChunk(extent, resolution, cellBudget) <==> !(nx * ny > cellBudget)
  {
    CellsMean(extent.x0, extent.x1, resolution);
    CellsMean(extent.y0, extent.y1, resolution);
    CountIsUnique(nx, Cells(extent.x0, extent.x1, resolution), extent.x0, extent.x1, resolution);
    CountIsUnique(ny, Cells(extent.y0, extent.y1, resolution), extent.y0, extent.y1, resolution);
  }

  /** The edge of a chunk is the longest whose buffered square is within the budget. */
  lemma EdgeMeans(cellBudget: nat, bufferCells: nat)
    ensures var side := Edge(cellBudget, bufferCells) + bufferCells + bufferCells;
            side >= 0 && side * side <= cellBudget && (side + 1) * (side + 1) > cellBudget
  {
  }
}
