/**
 * What one repaint of the WebGL tilemap draws, as values: the per-cell plan
 * of `_paintTiles` (which tile goes to which band, when the shadow and the
 * table edge are drawn), the row-major grid of `_paintAllTiles`, the start
 * tile and layer offset of `updateTransform`, the window sizing of
 * `_createLayers` and the animation phase of `_hackRenderer`.
 */
module Painting {
  import opened JsNum
  import opened Records
  import opened Decoders

  /** The three tile bands: below the characters (two of them) and above. */
  datatype Band = Lowest | Lower | Upper

  /** One drawing call of `_paintTiles`, with the destination of its cell. */
  datatype PaintOp =
    | TileOp(band: Band, tileId: nat, dx: int, dy: int)
    | ShadowOp(bits: nat, dx: int, dy: int)
    | EdgeOp(tileId: nat, dx: int, dy: int)

  /** What the tilemap has drawn: the record states of each band's layers and the shadow rectangles. */
  datatype View = View(lowest: seq<LayerState>, lower: seq<LayerState>, upper: seq<LayerState>, shadows: seq<FillRect>)

  /** What clearing both z-bands leaves: every slot empty and no shadow. */
  function Blank(v: View): (b: View)
    ensures |b.lowest| == |v.lowest| && |b.lower| == |v.lower| && |b.upper| == |v.upper| && b.shadows == []
    ensures forall s <- b.lowest + b.lower + b.upper :: s == LayerState([], false)
  {
    View(seq(|v.lowest|, _ => LayerState([], false)), seq(|v.lower|, _ => LayerState([], false)),
         seq(|v.upper|, _ => LayerState([], false)), [])
  }

  /** The band a tile of map layer 0 or 1 is drawn into. */
  function GroundBand(o: Oracle, id: nat): Band
  {
    if o.isHigherTile(id) then Upper else Lowest
  }

  /** The band a tile of map layer 2 or 3 is drawn into: above on an overpass cell. */
  function ObjectBand(o: Oracle, id: nat, overpass: bool): Band
  {
    if overpass || o.isHigherTile(id) then Upper else Lower
  }

  /** Whether the cell shows the edge of the table tile above it. */
  predicate ShowsTableEdge(o: Oracle, id0: nat, id1: nat, above1: nat)
  {
    o.isTableTile(above1) && !o.isTableTile(id1) && !o.isShadowingTile(id0)
  }

  /** The calls for cell (x, y) of the window whose top-left map cell is (startX, startY). */
  function CellOps(o: Oracle, tw: int, th: int, startX: int, startY: int, x: int, y: int): seq<PaintOp>
  {
    var mx, my := startX + x, startY + y;
    GroundOps(o, mx, my, x * tw, y * th) + EdgeOps(o, mx, my, x * tw, y * th) + ObjectOps(o, mx, my, x * tw, y * th)
  }

  /** A cell's calls are its ground calls, its edge call and its object calls, in that order. */
  lemma CellOpsParts(o: Oracle, tw: int, th: int, startX: int, startY: int, x: int, y: int, mx: int, my: int, dx: int, dy: int)
    requires mx == startX + x && my == startY + y && dx == x * tw && dy == y * th
    ensures CellOps(o, tw, th, startX, startY, x, y) == GroundOps(o, mx, my, dx, dy) + EdgeOps(o, mx, my, dx, dy) + ObjectOps(o, mx, my, dx, dy)
  {
  }

  /** The per-cell plan of a window starting at (startX, startY). */
  function CellPlan(o: Oracle, tw: int, th: int, startX: int, startY: int): (int, int) -> seq<PaintOp>
  {
    (x, y) => CellOps(o, tw, th, startX, startY, x, y)
  }

  /** `plan` gives every cell of the window starting at (startX, startY) the calls `CellOps` gives it. */
  ghost predicate PlansCells(plan: (int, int) -> seq<PaintOp>, o: Oracle, tw: int, th: int, startX: int, startY: int)
  {
    forall x, y {:trigger CellOps(o, tw, th, startX, startY, x, y)} :: plan(x, y) == CellOps(o, tw, th, startX, startY, x, y)
  }

  /** `run` paints any sequence of calls on `v`, as `ApplyOps` does. */
  ghost predicate Runs(run: imap<seq<PaintOp>, View>, o: Oracle, tw: int, th: int, v: View)
  {
    && (forall ops :: ops in run)
    && forall ops {:trigger ApplyOps(o, tw, th, v, ops)} :: run[ops] == ApplyOps(o, tw, th, v, ops)
  }

  lemma RunsFrom(o: Oracle, tw: int, th: int, v: View)
    ensures Runs(imap ops | true :: ApplyOps(o, tw, th, v, ops), o, tw, th, v)
  {
  }

  lemma CellPlanCells(o: Oracle, tw: int, th: int, startX: int, startY: int)
    ensures PlansCells(CellPlan(o, tw, th, startX, startY), o, tw, th, startX, startY)
  {
  }

  /** Map layers 0 and 1, then the shadow of map layer 4. */
  function GroundOps(o: Oracle, mx: int, my: int, dx: int, dy: int): (ops: seq<PaintOp>)
    ensures |ops| == 3 && ops[0].TileOp? && ops[1].TileOp? && ops[2].ShadowOp?
  {
    var id0, id1 := o.readMapData(mx, my, 0), o.readMapData(mx, my, 1);
    [TileOp(GroundBand(o, id0), id0, dx, dy), TileOp(GroundBand(o, id1), id1, dx, dy), ShadowOp(o.readMapData(mx, my, 4), dx, dy)]
  }

  /** The edge of the layer-1 table tile of the cell above, when this cell shows it. */
  function EdgeOps(o: Oracle, mx: int, my: int, dx: int, dy: int): (ops: seq<PaintOp>)
    ensures |ops| <= 1 && (forall i :: 0 <= i < |ops| ==> ops[i].EdgeOp?)
  {
    var above1 := o.readMapData(mx, my - 1, 1);
    if ShowsTableEdge(o, o.readMapData(mx, my, 0), o.readMapData(mx, my, 1), above1) then [EdgeOp(above1, dx, dy)] else []
  }

  /** Map layers 2 and 3. */
  function ObjectOps(o: Oracle, mx: int, my: int, dx: int, dy: int): (ops: seq<PaintOp>)
    ensures |ops| == 2 && ops[0].TileOp? && ops[1].TileOp?
  {
    var id2, id3 := o.readMapData(mx, my, 2), o.readMapData(mx, my, 3);
    var overpass := o.isOverpassPosition(mx, my);
    [TileOp(ObjectBand(o, id2, overpass), id2, dx, dy), TileOp(ObjectBand(o, id3, overpass), id3, dx, dy)]
  }

  /** Whether a call draws the given tile into some band. */
  predicate DrawsTile(op: PaintOp, id: nat)
  {
    op.TileOp? && op.tileId == id
  }

  /**
   * Each cell draws its four map layers in order 0, 1, 2, 3 at its own
   * destination, with the shadow after the ground layers and the table edge,
   * when shown, right after the shadow.
   */
  lemma CellLayout(o: Oracle, tw: int, th: int, startX: int, startY: int, x: int, y: int)
    ensures var ops := CellOps(o, tw, th, startX, startY, x, y);
      var mx, my := startX + x, startY + y;
      var edge := ShowsTableEdge(o, o.readMapData(mx, my, 0), o.readMapData(mx, my, 1), o.readMapData(mx, my - 1, 1));
      && |ops| == (if edge then 6 else 5)
      && (forall i :: 0 <= i < |ops| ==> ops[i].dx == x * tw && ops[i].dy == y * th)
      && DrawsTile(ops[0], o.readMapData(mx, my, 0))
      && DrawsTile(ops[1], o.readMapData(mx, my, 1))
      && ops[2] == ShadowOp(o.readMapData(mx, my, 4), x * tw, y * th)
      && (edge ==> ops[3] == EdgeOp(o.readMapData(mx, my - 1, 1), x * tw, y * th))
      && DrawsTile(ops[|ops| - 2], o.readMapData(mx, my, 2))
      && DrawsTile(ops[|ops| - 1], o.readMapData(mx, my, 3))
  {
    var mx, my := startX + x, startY + y;
    var g, e, b := GroundOps(o, mx, my, x * tw, y * th), EdgeOps(o, mx, my, x * tw, y * th), ObjectOps(o, mx, my, x * tw, y * th);
    var ops := g + e + b;
    assert ops[|ops| - 2] == b[0] && ops[|ops| - 1] == b[1];
  }

  /**
   * A higher tile always goes to the upper band; a layer-0/1 tile goes up
   * exactly when it is higher and to the lowest band otherwise; the lowest
   * band receives only layer-0/1 tiles and the lower band only layer-2/3
   * tiles and table edges, and a layer-2/3 tile goes up exactly when it is
   * higher or its cell is an overpass.
   */
  lemma CellBands(o: Oracle, tw: int, th: int, startX: int, startY: int, x: int, y: int)
    ensures var ops := CellOps(o, tw, th, startX, startY, x, y);
      var mx, my := startX + x, startY + y;
      var n := |ops|;
      && n >= 5
      && (forall i :: 0 <= i < n && ops[i].TileOp? && o.isHigherTile(ops[i].tileId) ==> ops[i].band == Upper)
      && ops[0].band != Lower && ops[1].band != Lower
      && (forall i :: 0 <= i < 2 ==>
            (ops[i].band == Upper <==> o.isHigherTile(ops[i].tileId))
            && (ops[i].band == Lowest <==> !o.isHigherTile(ops[i].tileId)))
      && (forall i :: n - 2 <= i < n ==> ops[i].TileOp? && ops[i].band != Lowest)
      && (forall i :: n - 2 <= i < n ==> (ops[i].band == Upper <==> o.isOverpassPosition(mx, my) || o.isHigherTile(ops[i].tileId)))
  {
    var mx, my := startX + x, startY + y;
    var g, e, b := GroundOps(o, mx, my, x * tw, y * th), EdgeOps(o, mx, my, x * tw, y * th), ObjectOps(o, mx, my, x * tw, y * th);
    var ops := g + e + b;
    assert forall i :: 0 <= i < 3 ==> ops[i] == g[i];
    assert forall i :: 0 <= i < |e| ==> ops[3 + i] == e[i];
    assert forall i :: 0 <= i < 2 ==> ops[3 + |e| + i] == b[i];
  }

  /** One drawing call applied to the view: tiles and edges append to one slot of one band, shadows add rectangles. */
  function ApplyOp(o: Oracle, tw: int, th: int, v: View, op: PaintOp): View
  {
    match op
    case TileOp(band, id, dx, dy) =>
      var d := DecodeTile(o, id, tw, th, dx, dy);
      (match band
       case Lowest => v.(lowest := AppendAt(v.lowest, d.setNumber, d.rects))
       case Lower => v.(lower := AppendAt(v.lower, d.setNumber, d.rects))
       case Upper => v.(upper := AppendAt(v.upper, d.setNumber, d.rects)))
    case ShadowOp(bits, dx, dy) => v.(shadows := v.shadows + ShadowRects(bits, tw, th, dx, dy))
    case EdgeOp(id, dx, dy) =>
      var d := TableEdge(o, id, tw, th, dx, dy);
      v.(lower := AppendAt(v.lower, d.setNumber, d.rects))
  }

  /** A sequence of drawing calls, in order. */
  function ApplyOps(o: Oracle, tw: int, th: int, v: View, ops: seq<PaintOp>): View
    decreases |ops|
  {
    if ops == [] then v else ApplyOps(o, tw, th, ApplyOp(o, tw, th, v, ops[0]), ops[1..])
  }

  lemma {:induction false} ApplyOpsConcat(o: Oracle, tw: int, th: int, v: View, a: seq<PaintOp>, b: seq<PaintOp>)
    ensures ApplyOps(o, tw, th, v, a + b) == ApplyOps(o, tw, th, ApplyOps(o, tw, th, v, a), b)
    decreases |a|
  {
    if a != [] {
      assert (a + b)[0] == a[0] && (a + b)[1..] == a[1..] + b;
      ApplyOpsConcat(o, tw, th, ApplyOp(o, tw, th, v, a[0]), a[1..], b);
    } else {
      assert a + b == b;
    }
  }

  /** Drawing one more call after a sequence of calls. */
  lemma ApplyOpsSnoc(o: Oracle, tw: int, th: int, v: View, ops: seq<PaintOp>, op: PaintOp)
    ensures ApplyOps(o, tw, th, v, ops + [op]) == ApplyOp(o, tw, th, ApplyOps(o, tw, th, v, ops), op)
  {
    ApplyOpsConcat(o, tw, th, v, ops, [op]);
    var w := ApplyOps(o, tw, th, v, ops);
    assert ApplyOps(o, tw, th, w, [op]) == ApplyOps(o, tw, th, ApplyOp(o, tw, th, w, op), []);
  }

  /** The ground calls of a cell, applied one after the other. */
  lemma GroundSteps(o: Oracle, tw: int, th: int, v: View, mx: int, my: int, dx: int, dy: int, id0: nat, id1: nat, bits: nat)
    requires id0 == o.readMapData(mx, my, 0) && id1 == o.readMapData(mx, my, 1) && bits == o.readMapData(mx, my, 4)
    ensures ApplyOps(o, tw, th, v, GroundOps(o, mx, my, dx, dy)) ==
      ApplyOp(o, tw, th, ApplyOp(o, tw, th, ApplyOp(o, tw, th, v, TileOp(GroundBand(o, id0), id0, dx, dy)),
        TileOp(GroundBand(o, id1), id1, dx, dy)), ShadowOp(bits, dx, dy))
  {
    var ops := GroundOps(o, mx, my, dx, dy);
    var v1 := ApplyOp(o, tw, th, v, ops[0]);
    var v2 := ApplyOp(o, tw, th, v1, ops[1]);
    var v3 := ApplyOp(o, tw, th, v2, ops[2]);
    assert ApplyOps(o, tw, th, v3, ops[1..][1..][1..]) == v3;
    assert ApplyOps(o, tw, th, v2, ops[1..][1..]) == v3;
    assert ApplyOps(o, tw, th, v1, ops[1..]) == v3;
  }

  /** The object calls of a cell, applied one after the other. */
  lemma ObjectSteps(o: Oracle, tw: int, th: int, v: View, mx: int, my: int, dx: int, dy: int, id2: nat, id3: nat)
    requires id2 == o.readMapData(mx, my, 2) && id3 == o.readMapData(mx, my, 3)
    ensures var overpass := o.isOverpassPosition(mx, my);
      ApplyOps(o, tw, th, v, ObjectOps(o, mx, my, dx, dy)) ==
      ApplyOp(o, tw, th, ApplyOp(o, tw, th, v, TileOp(ObjectBand(o, id2, overpass), id2, dx, dy)), TileOp(ObjectBand(o, id3, overpass), id3, dx, dy))
  {
    var ops := ObjectOps(o, mx, my, dx, dy);
    var v1 := ApplyOp(o, tw, th, v, ops[0]);
    var v2 := ApplyOp(o, tw, th, v1, ops[1]);
    assert ApplyOps(o, tw, th, v2, ops[1..][1..]) == v2;
    assert ApplyOps(o, tw, th, v1, ops[1..]) == v2;
  }

  /** One band's slots, with the records of each only extended and its animation flag only ever set. */
  predicate Extends(before: seq<LayerState>, after: seq<LayerState>)
  {
    && |after| == |before|
    && forall i :: 0 <= i < |before| ==> before[i].points <= after[i].points && (before[i].hasAnim ==> after[i].hasAnim)
  }

  /**
   * Painting only draws: no band gains or loses a slot, every slot's records
   * and the shadow list are only extended, and a slot that was animated
   * stays animated.
   */
  lemma {:induction false} ApplyOpsExtends(o: Oracle, tw: int, th: int, v: View, ops: seq<PaintOp>)
    ensures var w := ApplyOps(o, tw, th, v, ops);
      && Extends(v.lowest, w.lowest) && Extends(v.lower, w.lower) && Extends(v.upper, w.upper)
      && v.shadows <= w.shadows
    decreases |ops|
  {
    if ops != [] {
      var v1 := ApplyOp(o, tw, th, v, ops[0]);
      ApplyOpExtends(o, tw, th, v, ops[0]);
      ApplyOpsExtends(o, tw, th, v1, ops[1..]);
    }
  }

  lemma ApplyOpExtends(o: Oracle, tw: int, th: int, v: View, op: PaintOp)
    ensures var w := ApplyOp(o, tw, th, v, op);
      && Extends(v.lowest, w.lowest) && Extends(v.lower, w.lower) && Extends(v.upper, w.upper)
      && v.shadows <= w.shadows
  {
    match op
    case TileOp(_, id, dx, dy) =>
      var d := DecodeTile(o, id, tw, th, dx, dy);
      AppendAtExtends(v.lowest, d.setNumber, d.rects);
      AppendAtExtends(v.lower, d.setNumber, d.rects);
      AppendAtExtends(v.upper, d.setNumber, d.rects);
    case ShadowOp(_, _, _) =>
    case EdgeOp(id, dx, dy) =>
      var d := TableEdge(o, id, tw, th, dx, dy);
      AppendAtExtends(v.lower, d.setNumber, d.rects);
  }

  lemma AppendAtExtends(v: seq<LayerState>, setNumber: int, rs: seq<Rect>)
    ensures Extends(v, AppendAt(v, setNumber, rs))
  {
    if 0 <= setNumber < |v| {
      AppendAllAppends(v[setNumber], rs);
    }
  }

  /** Extension is transitive, so it survives a sequence of paints. */
  lemma ExtendsTrans(a: seq<LayerState>, b: seq<LayerState>, c: seq<LayerState>)
    requires Extends(a, b) && Extends(b, c)
    ensures Extends(a, c)
  {
    forall i | 0 <= i < |a|
      ensures a[i].points <= c[i].points
    {
      assert a[i].points <= b[i].points <= c[i].points;
    }
  }

  /** The calls for the first `k` cells of row `y`, left to right. */
  function RowOps(plan: (int, int) -> seq<PaintOp>, y: int, k: nat): seq<PaintOp>
  {
    if k == 0 then [] else RowOps(plan, y, k - 1) + plan(k - 1, y)
  }

  /** The calls for the first `rows` rows of `cols` cells each, top to bottom. */
  function GridOps(plan: (int, int) -> seq<PaintOp>, cols: nat, rows: nat): seq<PaintOp>
  {
    if rows == 0 then [] else GridOps(plan, cols, rows - 1) + RowOps(plan, rows - 1, cols)
  }

  /** Painting cell `x` of row `y` after the calls `done` and the cells before it. */
  lemma RowStep(o: Oracle, tw: int, th: int, v: View, done: seq<PaintOp>, plan: (int, int) -> seq<PaintOp>, y: int, x: nat)
    ensures ApplyOps(o, tw, th, v, done + RowOps(plan, y, x + 1))
         == ApplyOps(o, tw, th, ApplyOps(o, tw, th, v, done + RowOps(plan, y, x)), plan(x, y))
  {
    ApplyOpsConcat(o, tw, th, v, done + RowOps(plan, y, x), plan(x, y));
    AppendAssoc(done, RowOps(plan, y, x), plan(x, y));
  }

  lemma AppendAssoc<T>(a: seq<T>, b: seq<T>, c: seq<T>)
    ensures a + (b + c) == a + b + c
  {
  }

  /** The first `k` cells of row `y`, left to right. */
  function RowCells(y: int, k: nat): seq<(int, int)>
  {
    if k == 0 then [] else RowCells(y, k - 1) + [(k - 1, y)]
  }

  /** The cells of a `cols` x `rows` window in row-major order. */
  function Cells(cols: nat, rows: nat): seq<(int, int)>
  {
    if rows == 0 then [] else Cells(cols, rows - 1) + RowCells(rows - 1, cols)
  }

  lemma {:induction false} RowCellsAt(y: int, k: nat, x: nat)
    ensures |RowCells(y, k)| == k
    ensures x < k ==> RowCells(y, k)[x] == (x, y)
  {
    if k > 0 {
      RowCellsAt(y, k - 1, x);
    }
  }

  /** Cell (x, y) of the window comes at position `y * cols + x`: rows top to bottom, each left to right. */
  lemma {:induction false} CellsOrder(cols: nat, rows: nat, x: nat, y: nat)
    requires x < cols && y < rows
    ensures y * cols + x < |Cells(cols, rows)| && Cells(cols, rows)[y * cols + x] == (x, y)
    decreases rows, 1
  {
    if y < rows - 1 {
      CellsOrderAbove(cols, rows, x, y);
    } else {
      CellsLastRow(cols, rows, x);
      CellsLength(cols, rows - 1);
      RowBase(y, rows, cols);
    }
  }

  /** A cell above the last row keeps its position when the last row is added. */
  lemma {:induction false} CellsOrderAbove(cols: nat, rows: nat, x: nat, y: nat)
    requires x < cols && y < rows - 1
    ensures y * cols + x < |Cells(cols, rows)| && Cells(cols, rows)[y * cols + x] == (x, y)
    decreases rows, 0
  {
    var p, r := Cells(cols, rows - 1), RowCells(rows - 1, cols);
    assert Cells(cols, rows) == p + r;
    CellsOrder(cols, rows - 1, x, y);
    ConcatLeft(p, r, y * cols + x);
  }

  lemma RowBase(y: nat, rows: nat, cols: nat)
    requires y + 1 == rows
    ensures y * cols == cols * (rows - 1)
  {
  }

  /** The last row of the window comes after all the rows above it. */
  lemma CellsLastRow(cols: nat, rows: nat, x: nat)
    requires x < cols && 0 < rows
    ensures |Cells(cols, rows - 1)| + x < |Cells(cols, rows)|
    ensures Cells(cols, rows)[|Cells(cols, rows - 1)| + x] == (x, rows - 1)
  {
    var p, r := Cells(cols, rows - 1), RowCells(rows - 1, cols);
    RowCellsAt(rows - 1, cols, x);
    assert (p + r)[|p| + x] == r[x];
  }

  lemma ConcatLeft<T>(p: seq<T>, r: seq<T>, i: int)
    requires 0 <= i < |p|
    ensures i < |p + r| && (p + r)[i] == p[i]
  {
  }

  /** The window has `cols * rows` cells. */
  lemma {:induction false} CellsLength(cols: nat, rows: nat)
    ensures |Cells(cols, rows)| == cols * rows
  {
    if rows > 0 {
      CellsLength(cols, rows - 1);
      RowCellsAt(rows - 1, cols, 0);
      assert cols * rows == cols * (rows - 1) + cols;
    }
  }

  /** The calls of a list of cells, cell after cell. */
  function CellsOps(plan: (int, int) -> seq<PaintOp>, cs: seq<(int, int)>): seq<PaintOp>
  {
    if cs == [] then [] else plan(cs[0].0, cs[0].1) + CellsOps(plan, cs[1..])
  }

  lemma {:induction false} CellsOpsConcat(plan: (int, int) -> seq<PaintOp>, a: seq<(int, int)>, b: seq<(int, int)>)
    ensures CellsOps(plan, a + b) == CellsOps(plan, a) + CellsOps(plan, b)
  {
    if a != [] {
      assert (a + b)[0] == a[0] && (a + b)[1..] == a[1..] + b;
      CellsOpsConcat(plan, a[1..], b);
      var c, x, y := plan(a[0].0, a[0].1), CellsOps(plan, a[1..]), CellsOps(plan, b);
      assert (c + x) + y == c + (x + y);
    } else {
      assert a + b == b;
    }
  }

  lemma {:induction false} RowOpsCells(plan: (int, int) -> seq<PaintOp>, y: int, k: nat)
    ensures RowOps(plan, y, k) == CellsOps(plan, RowCells(y, k))
  {
    if k > 0 {
      RowOpsCells(plan, y, k - 1);
      CellsOpsConcat(plan, RowCells(y, k - 1), [(k - 1, y)]);
      assert CellsOps(plan, [(k - 1, y)]) == plan(k - 1, y);
    }
  }

  /** The grid loop issues exactly the calls of its cells taken in row-major order. */
  lemma {:induction false} GridOpsCells(plan: (int, int) -> seq<PaintOp>, cols: nat, rows: nat)
    ensures GridOps(plan, cols, rows) == CellsOps(plan, Cells(cols, rows))
  {
    if rows > 0 {
      GridOpsCells(plan, cols, rows - 1);
      RowOpsCells(plan, rows - 1, cols);
      CellsOpsConcat(plan, Cells(cols, rows - 1), RowCells(rows - 1, cols));
    }
  }

  /** The first map column (or row) of the window: the tile under the floored origin less the margin. */
  function StartTile(origin: real, margin: int, tile: int): int
    requires tile > 0
  {
    (origin.Floor - margin) / tile
  }

  /** The start tile is the one whose span holds the floored origin less the margin, and no other is. */
  lemma StartTileBounds(origin: real, margin: int, tile: int, s: int)
    requires tile > 0
    ensures StartTile(origin, margin, tile) == s <==> tile * s <= origin.Floor - margin < tile * s + tile
  {
    var a := origin.Floor - margin;
    if tile * s <= a < tile * s + tile {
      DivModUnique(a, tile, s, a - tile * s);
    }
  }

  /** Scrolling by one whole tile moves the start by exactly one tile. */
  lemma StartTileScroll(origin: real, margin: int, tile: int)
    requires tile > 0
    ensures StartTile(origin + tile as real, margin, tile) == StartTile(origin, margin, tile) + 1
  {
    var s := StartTile(origin, margin, tile);
    assert (origin + tile as real).Floor == origin.Floor + tile;
    StartTileBounds(origin, margin, tile, s);
    StartTileBounds(origin + tile as real, margin, tile, s + 1);
  }

  /** The offset of both z-bands: where the start tile lands relative to the floored origin. */
  function LayerOffset(start: int, tile: int, origin: real): int
  {
    start * tile - origin.Floor
  }

  /** The offset lies in (-margin - tile, -margin]: at most one tile beyond the margin. */
  lemma LayerOffsetRange(origin: real, margin: int, tile: int)
    requires tile > 0
    ensures var off := LayerOffset(StartTile(origin, margin, tile), tile, origin);
      -margin - tile < off <= -margin
  {
    StartTileBounds(origin, margin, tile, StartTile(origin, margin, tile));
  }

  /** The number of tile columns (or rows) of the window: one more than cover the extent. */
  function GridSpan(extent: int, tile: int): (n: int)
    requires tile > 0
    ensures extent >= 0 ==> n >= 1
  {
    CeilDiv(extent, tile) + 1
  }

  /**
   * The window covers the extent plus at least one tile and less than two,
   * so with the layer shifted by its offset the painted area reaches past
   * the extent less the margin.
   */
  lemma GridCoverage(extent: int, origin: real, margin: int, tile: int)
    requires tile > 0
    ensures extent + tile <= GridSpan(extent, tile) * tile < extent + 2 * tile
    ensures LayerOffset(StartTile(origin, margin, tile), tile, origin) + GridSpan(extent, tile) * tile > extent - margin
  {
    var c := CeilDiv(extent, tile);
    assert (c + 1) * tile == c * tile + tile;
    assert (c - 1) * tile == c * tile - tile;
    LayerOffsetRange(origin, margin, tile);
  }

  /** The animation offsets `_hackRenderer` hands to the shaders. */
  function AnimationPhase(frame: nat, tw: int, th: int): (int, int)
  {
    var af := frame % 4;
    var ax := if af == 3 then 1 else af;
    (ax * tw, frame % 3 * th)
  }

  /**
   * The horizontal offset steps 0, 1, 2, 1 tile widths and the vertical one
   * 0, 1, 2 tile heights; together they repeat every 12 frames.
   */
  lemma AnimationCycle(frame: nat, tw: int, th: int)
    ensures var (ax, ay) := AnimationPhase(frame, tw, th);
      && ax == [0, 1, 2, 1][frame % 4] * tw
      && ay == [0, 1, 2][frame % 3] * th
    ensures AnimationPhase(frame + 12, tw, th) == AnimationPhase(frame, tw, th)
  {
    DivModUnique(frame + 12, 4, frame / 4 + 3, frame % 4);
    DivModUnique(frame + 12, 3, frame / 3 + 4, frame % 3);
  }
}
