/**
 * The WebGL tilemap itself: it owns the two z-bands and the three tile
 * bands and the shadow layer inside them, draws each map cell into them
 * through the tile decoders, and decides when to repaint the whole window.
 */
module Tilemap {
  import opened Wrappers
  import opened JsNum
  import opened Records
  import opened Decoders
  import opened Painting
  import opened Layers

  /**
   * The lower z-band of the one-time branch of `_createLayers`: the lowest
   * band, the shadow layer and the lower band, in drawing order, all new and
   * empty.
   */
  method CreateLowerBand(useSquare: bool)
    returns (zLayer: ZLayer, lowest: CompositeRectTileLayer, shadow: GraphicsLayer, lower: CompositeRectTileLayer)
    ensures fresh(zLayer) && fresh(lowest) && fresh(shadow) && fresh(lower) && lowest != lower
    ensures zLayer.z == 0 && lowest.z == 0 && lower.z == 0
    ensures lowest.useSquare == useSquare && lower.useSquare == useSquare
    ensures lowest.children == [] && lower.children == [] && shadow.rects == []
    ensures zLayer.children == [Tiles(lowest), Shadows(shadow), Tiles(lower)]
    ensures zLayer.Repr == {lowest, shadow, lower}
  {
    zLayer := new ZLayer(0);
    lowest := new CompositeRectTileLayer(0, useSquare);
    zLayer.AddChild(Tiles(lowest));
    shadow := new GraphicsLayer();
    zLayer.AddChild(Shadows(shadow));
    assert zLayer.children == [Tiles(lowest), Shadows(shadow)];
    assert zLayer.Repr == {lowest, shadow};
    lower := new CompositeRectTileLayer(0, useSquare);
    zLayer.AddChild(Tiles(lower));
  }

  /** The upper z-band of the one-time branch of `_createLayers`: the upper band, new and empty. */
  method CreateUpperBand(useSquare: bool) returns (zLayer: ZLayer, upper: CompositeRectTileLayer)
    ensures fresh(zLayer) && fresh(upper)
    ensures zLayer.z == 4 && upper.z == 4 && upper.useSquare == useSquare && upper.children == []
    ensures zLayer.children == [Tiles(upper)] && zLayer.Repr == {upper}
  {
    zLayer := new ZLayer(4);
    upper := new CompositeRectTileLayer(4, useSquare);
    zLayer.AddChild(Tiles(upper));
  }

  /** Layers that all hold no record have all-empty slot states. */
  lemma StatesCleared(ls: seq<RectTileLayer>)
    requires forall l <- ls :: l.State() == LayerState([], false)
    ensures States(ls) == seq(|ls|, _ => LayerState([], false))
  {
    StatesAt(ls);
  }

  /** `clear` on the lower z-band, seen through the three bands it holds. */
  method ClearLowerZ(z: ZLayer, lowest: CompositeRectTileLayer, shadow: GraphicsLayer, lower: CompositeRectTileLayer)
    requires z.Valid() && z.children == [Tiles(lowest), Shadows(shadow), Tiles(lower)]
    requires z.Repr == {lowest as object, shadow, lower} + (set l | l in lowest.children) + (set l | l in lower.children)
    modifies z`previousLayers, lowest, shadow, lower, lowest.children, lower.children
    ensures z.previousLayers == 0 && z.children == old(z.children)
    ensures lowest.children == old(lowest.children) && lower.children == old(lower.children)
    ensures lowest.Valid() && lower.Valid()
    ensures States(lowest.children) == seq(|lowest.children|, _ => LayerState([], false))
    ensures States(lower.children) == seq(|lower.children|, _ => LayerState([], false))
    ensures shadow.rects == []
    ensures lowest.modificationMarker == 0 && lower.modificationMarker == 0
    ensures Buffers(lowest.children) == ZeroMarkers(old(Buffers(lowest.children)))
    ensures Buffers(lower.children) == ZeroMarkers(old(Buffers(lower.children)))
  {
    ghost var before0, before2 := Buffers(lowest.children), Buffers(lower.children);
    BuffersAt(lowest.children);
    BuffersAt(lower.children);
    z.Clear();
    assert z.children[0].Cleared() && z.children[0].Layers() == old(z.children[0].Layers());
    assert z.children[1].Cleared();
    assert z.children[2].Cleared() && z.children[2].Layers() == old(z.children[2].Layers());
    assert z.children[0].Valid() && z.children[2].Valid();
    StatesCleared(lowest.children);
    StatesCleared(lower.children);
    ZeroedBuffers(lowest.children, before0);
    ZeroedBuffers(lower.children, before2);
  }

  /** `clear` on the upper z-band, seen through the band it holds. */
  method ClearUpperZ(z: ZLayer, upper: CompositeRectTileLayer)
    requires z.Valid() && z.children == [Tiles(upper)]
    requires z.Repr == {upper as object} + set l | l in upper.children
    modifies z`previousLayers, upper, upper.children
    ensures z.previousLayers == 0 && z.children == old(z.children)
    ensures upper.children == old(upper.children) && upper.Valid()
    ensures States(upper.children) == seq(|upper.children|, _ => LayerState([], false))
    ensures upper.modificationMarker == 0
    ensures Buffers(upper.children) == ZeroMarkers(old(Buffers(upper.children)))
  {
    ghost var before := Buffers(upper.children);
    BuffersAt(upper.children);
    z.Clear();
    assert z.children[0].Cleared() && z.children[0].Layers() == old(z.children[0].Layers());
    assert z.children[0].Valid();
    StatesCleared(upper.children);
    ZeroedBuffers(upper.children, before);
  }

  /** An empty list of calls changes no slot. */
  lemma NothingAppended(v: seq<LayerState>, setNumber: int)
    ensures AppendAt(v, setNumber, []) == v
  {
  }

  lemma AppendOne(s: LayerState, a: Rect)
    ensures AppendAll(s, [a]) == AppendRect(s, a)
  {
  }

  lemma AppendTwo(s: LayerState, a: Rect, b: Rect)
    ensures AppendAll(s, [a, b]) == AppendRect(AppendRect(s, a), b)
  {
    assert [a, b][1..] == [b];
    var s1 := AppendRect(s, a);
    assert AppendAll(s1, [b]) == AppendAll(AppendRect(s1, b), []);
  }

  /**
   * `_drawAutotile` computes an A4 block row as
   * `Math.floor((ty - 10) * 2.5 + (odd row ? 0.5 : 0))` on floating-point
   * numbers; it is the whole-number row of `A4Family`.
   */
  lemma A4RowFloor(kind: nat)
    ensures var ty := kind / 8;
      ((ty - 10) as real * 2.5 + (if ty % 2 == 1 then 0.5 else 0.0)).Floor == A4Family(kind).blockY
  {
    var ty := kind / 8;
    var n := (ty - 10) * 5 + (if ty % 2 == 1 then 1 else 0);
    assert (ty - 10) as real * 2.5 + (if ty % 2 == 1 then 0.5 else 0.0) == n as real / 2.0;
    var q := n / 2;
    assert q as real <= n as real / 2.0 < q as real + 1.0;
  }

  /** The markers and buffers of the three tile bands: each band's own marker, then its layers'. */
  datatype Rendering = Rendering(lowestMarker: int, lowerMarker: int, upperMarker: int,
                                 lowest: seq<BufferState>, lower: seq<BufferState>, upper: seq<BufferState>)

  /** What clearing both z-bands does to the markers and buffers: every marker is 0, every buffer stays. */
  function AfterClear(r: Rendering): Rendering
  {
    Rendering(0, 0, 0, ZeroMarkers(r.lowest), ZeroMarkers(r.lower), ZeroMarkers(r.upper))
  }

  /** Three distinct tile bands get one new, empty layer per texture each, and the shadows are cleared. */
  method ResetBands(a: CompositeRectTileLayer, b: CompositeRectTileLayer, c: CompositeRectTileLayer, shadows: GraphicsLayer, textures: seq<Texture>)
    requires a != b && a != c && b != c
    modifies a, b, c, shadows
    ensures a.Valid() && b.Valid() && c.Valid()
    ensures ShaderTilemap.EmptyLayersFor(a, textures) && ShaderTilemap.EmptyLayersFor(b, textures) && ShaderTilemap.EmptyLayersFor(c, textures)
    ensures shadows.rects == []
    ensures forall l <- a.children + b.children + c.children :: fresh(l)
  {
    a.SetBitmaps(textures);
    b.SetBitmaps(textures);
    c.SetBitmaps(textures);
    shadows.Clear();
  }

  class ShaderTilemap {
    /** The classifiers, autotile tables and map reads of the base tilemap. */
    const oracle: Oracle
    const tileWidth: int
    const tileHeight: int
    const margin: int
    const useSquare: bool
    /** The z-band below the characters (z 0) and the one above them (z 4). */
    const lowerZLayer: ZLayer
    const upperZLayer: ZLayer
    const lowestLayer: CompositeRectTileLayer
    const lowerLayer: CompositeRectTileLayer
    const upperLayer: CompositeRectTileLayer
    const shadowLayer: GraphicsLayer
    /** The window size in pixels, margins included. */
    var width: nat
    var height: nat
    var originX: real
    var originY: real
    var animationFrame: nat
    /** The tileset bitmaps, one texture per slot. */
    var bitmaps: seq<Texture>
    var layerWidth: int
    var layerHeight: int
    var needsRepaint: bool
    /** `undefined` until the first repaint, here None. */
    var lastStartX: Option<int>
    var lastStartY: Option<int>
    /** `undefined` until the first refresh, here -1. */
    var lastBitmapLength: int

    /**
     * The three tile bands own distinct, well-formed layers, the lower z-band
     * holds the lowest band, the shadow layer and the lower band in that order
     * and the upper z-band the upper band, and each z-band's footprint is
     * exactly what it holds.
     */
    ghost predicate Valid()
      reads lowerZLayer`children, lowerZLayer`Repr, upperZLayer`children, upperZLayer`Repr
      reads lowestLayer, lowerLayer, upperLayer, lowestLayer.children, lowerLayer.children, upperLayer.children
    {
      Paintable() && Bands()
    }

    /** The part of `Valid` that painting relies on and keeps: the tile bands own distinct, well-formed layers. */
    ghost predicate Paintable()
      reads lowestLayer, lowerLayer, upperLayer, lowestLayer.children, lowerLayer.children, upperLayer.children
    {
      && TileSizeOk(tileWidth, tileHeight)
      && lowestLayer != lowerLayer && lowestLayer != upperLayer && lowerLayer != upperLayer
      && lowestLayer.Valid() && lowerLayer.Valid() && upperLayer.Valid()
    }

    /** The lower band holds the lowest tiles, the shadows and the lower tiles; the upper band the upper tiles. */
    ghost predicate BandsHold()
      reads lowerZLayer`children, upperZLayer`children
    {
      && lowerZLayer != upperZLayer
      && lowerZLayer.children == [Tiles(lowestLayer), Shadows(shadowLayer), Tiles(lowerLayer)]
      && upperZLayer.children == [Tiles(upperLayer)]
    }

    /** The part of `Valid` that painting cannot disturb: which z-band holds what, and what each band's footprint is. */
    ghost predicate Bands()
      reads lowerZLayer`children, lowerZLayer`Repr, upperZLayer`children, upperZLayer`Repr
      reads lowestLayer, lowerLayer, upperLayer
    {
      && BandsHold()
      && lowerZLayer.Repr == LowerRepr()
      && upperZLayer.Repr == UpperRepr()
    }

    ghost function LowerRepr(): set<object>
      reads lowestLayer, lowerLayer
    {
      {lowestLayer as object, shadowLayer, lowerLayer} + (set l | l in lowestLayer.children) + (set l | l in lowerLayer.children)
    }

    ghost function UpperRepr(): set<object>
      reads upperLayer
    {
      {upperLayer as object} + set l | l in upperLayer.children
    }

    /** What is drawn: each band's slots and the shadow rectangles. */
    function Drawn(): View
      reads lowestLayer, lowerLayer, upperLayer, shadowLayer
      reads lowestLayer.children, lowerLayer.children, upperLayer.children
    {
      View(States(lowestLayer.children), States(lowerLayer.children), States(upperLayer.children), shadowLayer.rects)
    }

    /** The markers and vertex buffers of the tile bands and their layers. */
    function Render(): Rendering
      reads lowestLayer, lowerLayer, upperLayer, lowestLayer.children, lowerLayer.children, upperLayer.children
    {
      Rendering(lowestLayer.modificationMarker, lowerLayer.modificationMarker, upperLayer.modificationMarker,
                Buffers(lowestLayer.children), Buffers(lowerLayer.children), Buffers(upperLayer.children))
    }

    /** The z-bands are well formed whenever the tilemap is. */
    lemma ZLayersValid()
      requires Valid()
      ensures lowerZLayer.Valid() && upperZLayer.Valid()
    {
    }

    /**
     * Construction, including the first `_createLayers`: both z-bands, the
     * three empty tile bands and the shadow layer are created once, and the
     * window is sized.
     */
    constructor(oracle: Oracle, tileWidth: int, tileHeight: int, margin: int, width: nat, height: nat, useSquare: bool)
      requires TileSizeOk(tileWidth, tileHeight)
      ensures Valid()
      ensures this.oracle == oracle && this.tileWidth == tileWidth && this.tileHeight == tileHeight
      ensures this.margin == margin && this.width == width && this.height == height && this.useSquare == useSquare
      ensures Drawn() == View([], [], [], []) && bitmaps == []
      ensures needsRepaint && lastStartX == None && lastStartY == None && lastBitmapLength == -1
      ensures layerWidth == GridSpan(width, tileWidth) * tileWidth && layerHeight == GridSpan(height, tileHeight) * tileHeight
      ensures lowerZLayer.z == 0 && upperZLayer.z == 4
      ensures lowestLayer.z == 0 && lowerLayer.z == 0 && upperLayer.z == 4
      ensures lowestLayer.useSquare == useSquare && lowerLayer.useSquare == useSquare && upperLayer.useSquare == useSquare
    {
      this.oracle := oracle;
      this.tileWidth := tileWidth;
      this.tileHeight := tileHeight;
      this.margin := margin;
      this.useSquare := useSquare;
      var lowerZ, lowest, shadow, lower := CreateLowerBand(useSquare);
      var upperZ, upper := CreateUpperBand(useSquare);
      lowerZLayer, upperZLayer := lowerZ, upperZ;
      lowestLayer, lowerLayer, upperLayer, shadowLayer := lowest, lower, upper, shadow;
      this.width, this.height := width, height;
      originX, originY := 0.0, 0.0;
      animationFrame := 0;
      bitmaps := [];
      lastStartX, lastStartY := None, None;
      lastBitmapLength := -1;
      layerWidth := GridSpan(width, tileWidth) * tileWidth;
      layerHeight := GridSpan(height, tileHeight) * tileHeight;
      needsRepaint := true;
      assert (set l | l in lowest.children) == {} && (set l | l in lower.children) == {} && (set l | l in upper.children) == {};
    }

    /**
     * `_createLayers` once the layers exist: the window is one tile wider and
     * higher than what covers the view, and a repaint is requested.
     */
    method CreateLayers()
      requires tileWidth > 0 && tileHeight > 0
      modifies this`layerWidth, this`layerHeight, this`needsRepaint
      ensures layerWidth == GridSpan(width, tileWidth) * tileWidth
      ensures layerHeight == GridSpan(height, tileHeight) * tileHeight
      ensures width + tileWidth <= layerWidth < width + 2 * tileWidth
      ensures height + tileHeight <= layerHeight < height + 2 * tileHeight
      ensures needsRepaint
    {
      var tileCols := CeilDiv(width, tileWidth) + 1;
      var tileRows := CeilDiv(height, tileHeight) + 1;
      layerWidth := tileCols * tileWidth;
      layerHeight := tileRows * tileHeight;
      needsRepaint := true;
      GridCoverage(width, originX, margin, tileWidth);
      GridCoverage(height, originY, margin, tileHeight);
    }

    /** `_drawTile`: an invisible tile draws nothing, an autotile and a normal tile go to their decoders. */
    method DrawTile(layers: seq<RectTileLayer>, tileId: nat, dx: int, dy: int)
      requires TileSizeOk(tileWidth, tileHeight) && LayersOk(layers)
      modifies layers
      ensures LayersOk(layers) && Buffers(layers) == old(Buffers(layers))
      ensures var d := DecodeTile(oracle, tileId, tileWidth, tileHeight, dx, dy);
        States(layers) == AppendAt(old(States(layers)), d.setNumber, d.rects)
    {
      if oracle.isVisibleTile(tileId) {
        if oracle.isAutotile(tileId) {
          DrawAutotile(layers, tileId, dx, dy);
        } else {
          DrawNormalTile(layers, tileId, dx, dy);
        }
      } else {
        NothingAppended(old(States(layers)), 0);
      }
    }

    /** `_drawNormalTile`: one whole-cell record into the tile's slot, when that slot exists. */
    method DrawNormalTile(layers: seq<RectTileLayer>, tileId: nat, dx: int, dy: int)
      requires LayersOk(layers)
      modifies layers
      ensures LayersOk(layers) && Buffers(layers) == old(Buffers(layers))
      ensures var d := NormalTile(oracle, tileId, tileWidth, tileHeight, dx, dy);
        States(layers) == AppendAt(old(States(layers)), d.setNumber, d.rects)
    {
      StatesAt(layers);
      var setNumber := 0;
      if oracle.isTileA5(tileId) {
        setNumber := 4;
      } else {
        setNumber := 5 + tileId / 256;
      }
      var w := tileWidth;
      var h := tileHeight;
      var sx := (tileId / 128 % 2 * 8 + tileId % 8) * w;
      var sy := (tileId % 256 / 8 % 16) * h;
      ghost var r := Rect(sx, sy, dx, dy, w, h, 0, 0);
      assert NormalTile(oracle, tileId, tileWidth, tileHeight, dx, dy) == Decoded(setNumber, [r]);
      if 0 <= setNumber < |layers| {
        var layer := layers[setNumber];
        ghost var before := layer.State();
        layer.AddRect(sx, sy, dx, dy, w, h, 0, 0);
        AppendOne(before, r);
      }
      BuffersSame(layers);
      StatesAt(layers);
      OneSlotChanged(old(States(layers)), States(layers), setNumber);
    }

    /**
     * `_drawAutotile`: the family of the tile fixes its slot, block, animation
     * and shape table; when the shape has an entry and the slot exists, the
     * four quadrants are drawn into it.
     */
    method DrawAutotile(layers: seq<RectTileLayer>, tileId: nat, dx: int, dy: int)
      requires TileSizeOk(tileWidth, tileHeight) && LayersOk(layers)
      modifies layers
      ensures LayersOk(layers) && Buffers(layers) == old(Buffers(layers))
      ensures var d := Autotile(oracle, tileId, tileWidth, tileHeight, dx, dy);
        States(layers) == AppendAt(old(States(layers)), d.setNumber, d.rects)
    {
      StatesAt(layers);
      var f := AutotileFamily(oracle, tileId);
      var table := TableFor(oracle, f.table);
      var shape := oracle.autotileShape(tileId);
      if shape in table && 0 <= f.setNumber < |layers| {
        DrawQuadrants(layers[f.setNumber], f, table[shape], dx, dy);
      } else if shape !in table {
        NothingAppended(old(States(layers)), f.setNumber);
      }
      BuffersSame(layers);
      StatesAt(layers);
      OneSlotChanged(old(States(layers)), States(layers), f.setNumber);
    }

    /** The quadrant loop of `_drawAutotile`: quadrant `i` takes its source from entry `i` of the shape. */
    method DrawQuadrants(layer: RectTileLayer, f: Family, t: QuadTable, dx: int, dy: int)
      requires TileSizeOk(tileWidth, tileHeight) && layer.Valid()
      modifies layer
      ensures layer.Valid() && layer.Buffer() == old(layer.Buffer())
      ensures layer.State() == AppendAll(old(layer.State()), QuadrantsUpTo(f, t, tileWidth, tileHeight, dx, dy, 4))
    {
      var w1 := tileWidth / 2;
      var h1 := tileHeight / 2;
      for i := 0 to 4
        invariant layer.Valid() && layer.Buffer() == old(layer.Buffer())
        invariant layer.State() == AppendAll(old(layer.State()), QuadrantsUpTo(f, t, tileWidth, tileHeight, dx, dy, i))
      {
        ghost var before := layer.State();
        ghost var q := QuadrantRects(f, tileWidth, tileHeight, dx, dy, i, t[i]);
        var qsx := t[i].0;
        var qsy := t[i].1;
        var sx1 := (f.blockX * 2 + qsx) * w1;
        var sy1 := (f.blockY * 2 + qsy) * h1;
        var dx1 := dx + (i % 2) * w1;
        var dy1 := dy + (i / 2) * h1;
        if f.isTable && (qsy == 1 || qsy == 5) {
          var qsx2 := qsx;
          var qsy2 := 3;
          if qsy == 1 {
            qsx2 := JsRem(4 - qsx, 4);
          }
          var sx2 := (f.blockX * 2 + qsx2) * w1;
          var sy2 := (f.blockY * 2 + qsy2) * h1;
          ghost var r1, r2 := Rect(sx2, sy2, dx1, dy1, w1, h1, f.animX, f.animY), Rect(sx1, sy1, dx1, dy1 + h1 / 2, w1, h1 / 2, f.animX, f.animY);
          assert q == [r1, r2];
          layer.AddRect(sx2, sy2, dx1, dy1, w1, h1, f.animX, f.animY);
          layer.AddRect(sx1, sy1, dx1, dy1 + h1 / 2, w1, h1 / 2, f.animX, f.animY);
          AppendTwo(before, r1, r2);
        } else {
          ghost var r := Rect(sx1, sy1, dx1, dy1, w1, h1, f.animX, f.animY);
          assert q == [r];
          layer.AddRect(sx1, sy1, dx1, dy1, w1, h1, f.animX, f.animY);
          AppendOne(before, r);
        }
        AppendAllConcat(old(layer.State()), QuadrantsUpTo(f, t, tileWidth, tileHeight, dx, dy, i), QuadrantRects(f, tileWidth, tileHeight, dx, dy, i, t[i]));
      }
    }

    /**
     * `_drawTableEdge`: for an A2 tile whose shape has a floor entry, the lower
     * halves of quadrant entries 2 and 3 go side by side along the top of the
     * cell into slot 1, when that slot exists.
     */
    method DrawTableEdge(layers: seq<RectTileLayer>, tileId: nat, dx: int, dy: int)
      requires TileSizeOk(tileWidth, tileHeight) && LayersOk(layers)
      modifies layers
      ensures LayersOk(layers) && Buffers(layers) == old(Buffers(layers))
      ensures var d := TableEdge(oracle, tileId, tileWidth, tileHeight, dx, dy);
        States(layers) == AppendAt(old(States(layers)), d.setNumber, d.rects)
    {
      StatesAt(layers);
      if oracle.isTileA2(tileId) {
        var kind := oracle.autotileKind(tileId);
        var shape := oracle.autotileShape(tileId);
        var tx: int := kind % 8;
        var ty: int := kind / 8;
        var setNumber := 1;
        var blockX := tx * 2;
        var blockY := (ty - 2) * 3;
        if shape in oracle.floorTable && setNumber < |layers| {
          DrawEdgeHalves(layers[setNumber], blockX, blockY, oracle.floorTable[shape], dx, dy);
        } else if shape !in oracle.floorTable {
          NothingAppended(old(States(layers)), 1);
        }
      } else {
        NothingAppended(old(States(layers)), 1);
      }
      BuffersSame(layers);
      StatesAt(layers);
      OneSlotChanged(old(States(layers)), States(layers), 1);
    }

    /** The loop of `_drawTableEdge`: the lower halves of shape entries 2 and 3, left then right. */
    method DrawEdgeHalves(layer: RectTileLayer, blockX: int, blockY: int, table: QuadTable, dx: int, dy: int)
      requires layer.Valid()
      modifies layer
      ensures layer.Valid() && layer.Buffer() == old(layer.Buffer())
      ensures layer.State() == AppendAll(old(layer.State()), EdgeRects(blockX, blockY, table, tileWidth, tileHeight, dx, dy))
    {
      ghost var rs := EdgeRects(blockX, blockY, table, tileWidth, tileHeight, dx, dy);
      var w1 := tileWidth / 2;
      var h1 := tileHeight / 2;
      for i := 0 to 2
        invariant layer.Valid() && layer.Buffer() == old(layer.Buffer())
        invariant layer.State() == AppendAll(old(layer.State()), rs[..i])
      {
        ghost var before := layer.State();
        var qsx := table[2 + i].0;
        var qsy := table[2 + i].1;
        var sx1 := (blockX * 2 + qsx) * w1;
        var sy1 := (blockY * 2 + qsy) * h1 + h1 / 2;
        var dx1 := dx + (i % 2) * w1;
        var dy1 := dy + (i / 2) * h1;
        layer.AddRect(sx1, sy1, dx1, dy1, w1, h1 / 2, 0, 0);
        assert rs[i] == Rect(sx1, sy1, dx1, dy1, w1, h1 / 2, 0, 0);
        AppendOne(before, rs[i]);
        assert rs[..i + 1] == rs[..i] + [rs[i]];
        AppendAllConcat(old(layer.State()), rs[..i], [rs[i]]);
      }
      assert rs[..2] == rs;
    }

    /**
     * `_drawShadow`: when any of the low four bits is set, one quarter of the
     * cell per set bit, in bit order.
     */
    method DrawShadow(shadowBits: nat, dx: int, dy: int)
      modifies shadowLayer
      ensures shadowLayer.rects == old(shadowLayer.rects) + ShadowRects(shadowBits, tileWidth, tileHeight, dx, dy)
    {
      // `shadowBits & 0x0f` is non-zero exactly when the low four bits are not all clear.
      if shadowBits % 16 != 0 {
        var w1 := tileWidth / 2;
        var h1 := tileHeight / 2;
        for i := 0 to 4
          invariant shadowLayer.rects == old(shadowLayer.rects) + ShadowUpTo(shadowBits, tileWidth, tileHeight, dx, dy, i)
        {
          // `shadowBits & (1 << i)`
          if Bit(shadowBits, i) {
            var dx1 := dx + (i % 2) * w1;
            var dy1 := dy + (i / 2) * h1;
            shadowLayer.DrawRect(dx1, dy1, w1, h1);
          }
        }
      }
    }

    /** `_drawTile` into the layers of one band; the other bands and the shadows are untouched. */
    method DrawInBand(band: Band, tileId: nat, dx: int, dy: int)
      requires Paintable()
      modifies lowestLayer.children, lowerLayer.children, upperLayer.children
      ensures Paintable() && Render() == old(Render())
      ensures Drawn() == ApplyOp(oracle, tileWidth, tileHeight, old(Drawn()), TileOp(band, tileId, dx, dy))
    {
      match band {
        case Lowest => DrawInto(lowestLayer.children, lowerLayer.children, upperLayer.children, tileId, dx, dy);
        case Lower => DrawInto(lowerLayer.children, lowestLayer.children, upperLayer.children, tileId, dx, dy);
        case Upper => DrawInto(upperLayer.children, lowestLayer.children, lowerLayer.children, tileId, dx, dy);
      }
    }

    /** `_drawTile` into `target`, which shares no layer with the two other bands. */
    method DrawInto(target: seq<RectTileLayer>, other1: seq<RectTileLayer>, other2: seq<RectTileLayer>, tileId: nat, dx: int, dy: int)
      requires TileSizeOk(tileWidth, tileHeight) && LayersOk(target) && LayersOk(other1) && LayersOk(other2)
      requires forall l <- target :: l !in other1 && l !in other2
      modifies target
      ensures LayersOk(target) && LayersOk(other1) && LayersOk(other2)
      ensures var d := DecodeTile(oracle, tileId, tileWidth, tileHeight, dx, dy);
        States(target) == AppendAt(old(States(target)), d.setNumber, d.rects)
      ensures States(other1) == old(States(other1)) && States(other2) == old(States(other2))
      ensures Buffers(target) == old(Buffers(target))
      ensures Buffers(other1) == old(Buffers(other1)) && Buffers(other2) == old(Buffers(other2))
    {
      StatesAt(other1);
      StatesAt(other2);
      DrawTile(target, tileId, dx, dy);
      forall l <- other1 ensures l.State() == old(l.State()) && l.Valid() == old(l.Valid()) && l.Buffer() == old(l.Buffer()) { }
      forall l <- other2 ensures l.State() == old(l.State()) && l.Valid() == old(l.Valid()) && l.Buffer() == old(l.Buffer()) { }
      StatesAt(other1);
      StatesAt(other2);
      BuffersSame(other1);
      BuffersSame(other2);
    }

    /** `_drawTableEdge` into the lower band. */
    method DrawEdgeInLower(tileId: nat, dx: int, dy: int)
      requires Paintable()
      modifies lowerLayer.children
      ensures Paintable() && Render() == old(Render())
      ensures Drawn() == ApplyOp(oracle, tileWidth, tileHeight, old(Drawn()), EdgeOp(tileId, dx, dy))
    {
      DrawTableEdge(lowerLayer.children, tileId, dx, dy);
      forall l <- lowestLayer.children ensures l.State() == old(l.State()) && l.Valid() == old(l.Valid()) && l.Buffer() == old(l.Buffer()) { }
      assert States(lowestLayer.children) == old(States(lowestLayer.children));
      forall l <- upperLayer.children ensures l.State() == old(l.State()) && l.Valid() == old(l.Valid()) && l.Buffer() == old(l.Buffer()) { }
      assert States(upperLayer.children) == old(States(upperLayer.children));
      BuffersSame(lowestLayer.children);
      BuffersSame(upperLayer.children);
    }

    /** `_drawShadow` as a drawing call on the view. */
    method DrawShadowOp(shadowBits: nat, dx: int, dy: int)
      requires Paintable()
      modifies shadowLayer
      ensures Paintable() && Render() == old(Render())
      ensures Drawn() == ApplyOp(oracle, tileWidth, tileHeight, old(Drawn()), ShadowOp(shadowBits, dx, dy))
    {
      DrawShadow(shadowBits, dx, dy);
    }

    /**
     * `_paintTiles`: cell (x, y) of the window draws its ground tiles, its
     * shadow, the table edge it shows and its object tiles, each into the
     * band the plan of the cell routes it to, in that order.
     */
    method PaintTiles(startX: int, startY: int, x: int, y: int)
      requires Paintable()
      modifies lowestLayer.children, lowerLayer.children, upperLayer.children, shadowLayer
      ensures Paintable() && Render() == old(Render())
      ensures Drawn() == ApplyOps(oracle, tileWidth, tileHeight, old(Drawn()), CellOps(oracle, tileWidth, tileHeight, startX, startY, x, y))
    {
      var mx := startX + x;
      var my := startY + y;
      var dx, dy := x * tileWidth, y * tileHeight;
      ghost var g, e, b := GroundOps(oracle, mx, my, dx, dy), EdgeOps(oracle, mx, my, dx, dy), ObjectOps(oracle, mx, my, dx, dy);
      ghost var v0 := Drawn();
      PaintGround(mx, my, dx, dy);
      PaintEdge(mx, my, dx, dy);
      PaintObjects(mx, my, dx, dy);
      ApplyOpsConcat(oracle, tileWidth, tileHeight, v0, g, e);
      ApplyOpsConcat(oracle, tileWidth, tileHeight, v0, g + e, b);
      CellOpsParts(oracle, tileWidth, tileHeight, startX, startY, x, y, mx, my, dx, dy);
    }

    /** The table edge of `_paintTiles`: drawn when the tile above is a table, this one is not, and layer 0 casts no shadow. */
    method PaintEdge(mx: int, my: int, dx: int, dy: int)
      requires Paintable()
      modifies lowerLayer.children
      ensures Paintable() && Render() == old(Render())
      ensures Drawn() == ApplyOps(oracle, tileWidth, tileHeight, old(Drawn()), EdgeOps(oracle, mx, my, dx, dy))
    {
      var tileId0 := oracle.readMapData(mx, my, 0);
      var tileId1 := oracle.readMapData(mx, my, 1);
      var upperTileId1 := oracle.readMapData(mx, my - 1, 1);
      if oracle.isTableTile(upperTileId1) && !oracle.isTableTile(tileId1) {
        if !oracle.isShadowingTile(tileId0) {
          DrawEdgeInLower(upperTileId1, dx, dy);
          ApplyOpsSnoc(oracle, tileWidth, tileHeight, old(Drawn()), [], EdgeOp(upperTileId1, dx, dy));
        }
      }
    }

    /** The first part of `_paintTiles`: map layers 0 and 1, each to the upper band when higher, then the shadow. */
    method PaintGround(mx: int, my: int, dx: int, dy: int)
      requires Paintable()
      modifies lowestLayer.children, lowerLayer.children, upperLayer.children, shadowLayer
      ensures Paintable() && Render() == old(Render())
      ensures Drawn() == ApplyOps(oracle, tileWidth, tileHeight, old(Drawn()), GroundOps(oracle, mx, my, dx, dy))
    {
      var tileId0 := oracle.readMapData(mx, my, 0);
      var tileId1 := oracle.readMapData(mx, my, 1);
      var shadowBits := oracle.readMapData(mx, my, 4);
      GroundSteps(oracle, tileWidth, tileHeight, Drawn(), mx, my, dx, dy, tileId0, tileId1, shadowBits);
      // The upper band for a higher tile, the lowest band otherwise.
      DrawInBand(GroundBand(oracle, tileId0), tileId0, dx, dy);
      DrawInBand(GroundBand(oracle, tileId1), tileId1, dx, dy);
      DrawShadowOp(shadowBits, dx, dy);
    }

    /** The last part of `_paintTiles`: map layers 2 and 3, to the upper band on an overpass cell or when higher. */
    method PaintObjects(mx: int, my: int, dx: int, dy: int)
      requires Paintable()
      modifies lowestLayer.children, lowerLayer.children, upperLayer.children
      ensures Paintable() && Render() == old(Render())
      ensures Drawn() == ApplyOps(oracle, tileWidth, tileHeight, old(Drawn()), ObjectOps(oracle, mx, my, dx, dy))
    {
      var tileId2 := oracle.readMapData(mx, my, 2);
      var tileId3 := oracle.readMapData(mx, my, 3);
      ObjectSteps(oracle, tileWidth, tileHeight, Drawn(), mx, my, dx, dy, tileId2, tileId3);
      // The upper band on an overpass cell or for a higher tile, the lower band otherwise.
      var overpass := oracle.isOverpassPosition(mx, my);
      DrawInBand(ObjectBand(oracle, tileId2, overpass), tileId2, dx, dy);
      DrawInBand(ObjectBand(oracle, tileId3, overpass), tileId3, dx, dy);
    }

    /**
     * Every layer of a band is new for the bitmap of its slot: it draws from
     * that bitmap, holds no record, has no marker yet and no vertex buffer.
     * The band's own marker is 0, so it reports a change exactly when it has
     * a layer.
     */
    static ghost predicate EmptyLayersFor(c: CompositeRectTileLayer, textures: seq<Texture>)
      reads c, c.children
    {
      && |c.children| == |textures| && c.modificationMarker == 0
      && (c.IsModified(false) <==> |textures| > 0)
      && forall i :: 0 <= i < |textures| ==>
           c.children[i].texture == textures[i] && c.children[i].State() == LayerState([], false)
           && c.children[i].Buffer() == BufferState(-1, None, null)
    }

    /**
     * `_paintAllTiles` up to its grid loop: clearing both z-bands leaves every
     * slot of every band empty and no shadow, and forgets the child counts.
     */
    method ClearBands()
      requires Valid()
      modifies lowerZLayer`previousLayers, upperZLayer`previousLayers, lowestLayer, lowerLayer, upperLayer, shadowLayer
      modifies lowestLayer.children, lowerLayer.children, upperLayer.children
      ensures Valid() && Drawn() == Blank(old(Drawn())) && Render() == AfterClear(old(Render()))
      ensures lowerZLayer.previousLayers == 0 && upperZLayer.previousLayers == 0
      ensures lowestLayer.children == old(lowestLayer.children) && lowerLayer.children == old(lowerLayer.children)
      ensures upperLayer.children == old(upperLayer.children)
    {
      ClearLowerBand();
      ClearUpperBand();
    }

    /** `clear` on the lower z-band: the lowest and lower bands and the shadows are emptied. */
    method ClearLowerBand()
      requires Valid()
      modifies lowerZLayer`previousLayers, lowestLayer, lowerLayer, shadowLayer, lowestLayer.children, lowerLayer.children
      ensures Valid() && lowerZLayer.previousLayers == 0
      ensures lowestLayer.children == old(lowestLayer.children) && lowerLayer.children == old(lowerLayer.children)
      ensures upperLayer.children == old(upperLayer.children)
      ensures Drawn() == old(Drawn()).(lowest := Blank(old(Drawn())).lowest, lower := Blank(old(Drawn())).lower, shadows := [])
      ensures Render() == old(Render()).(lowestMarker := 0, lowerMarker := 0,
        lowest := ZeroMarkers(old(Render()).lowest), lower := ZeroMarkers(old(Render()).lower))
    {
      ZLayersValid();
      StatesAt(upperLayer.children);
      ClearLowerZ(lowerZLayer, lowestLayer, shadowLayer, lowerLayer);
      forall l <- upperLayer.children ensures l.State() == old(l.State()) && l.Valid() == old(l.Valid()) && l.Buffer() == old(l.Buffer()) { }
      StatesAt(upperLayer.children);
      BuffersSame(upperLayer.children);
    }

    /** `clear` on the upper z-band: the upper band is emptied. */
    method ClearUpperBand()
      requires Valid()
      modifies upperZLayer`previousLayers, upperLayer, upperLayer.children
      ensures Valid() && upperZLayer.previousLayers == 0
      ensures lowestLayer.children == old(lowestLayer.children) && lowerLayer.children == old(lowerLayer.children)
      ensures upperLayer.children == old(upperLayer.children)
      ensures Drawn() == old(Drawn()).(upper := Blank(old(Drawn())).upper)
      ensures Render() == old(Render()).(upperMarker := 0, upper := ZeroMarkers(old(Render()).upper))
    {
      ZLayersValid();
      StatesAt(lowestLayer.children);
      StatesAt(lowerLayer.children);
      ClearUpperZ(upperZLayer, upperLayer);
      forall l <- lowestLayer.children ensures l.State() == old(l.State()) && l.Valid() == old(l.Valid()) && l.Buffer() == old(l.Buffer()) { }
      forall l <- lowerLayer.children ensures l.State() == old(l.State()) && l.Valid() == old(l.Valid()) && l.Buffer() == old(l.Buffer()) { }
      StatesAt(lowestLayer.children);
      StatesAt(lowerLayer.children);
      BuffersSame(lowestLayer.children);
      BuffersSame(lowerLayer.children);
    }

    /**
     * `_paintAllTiles`: both z-bands are cleared, then the cells of the window
     * are painted row by row, left to right.
     */
    method PaintAllTiles(startX: int, startY: int)
      requires Valid()
      modifies lowerZLayer`previousLayers, upperZLayer`previousLayers, lowestLayer, lowerLayer, upperLayer, shadowLayer
      modifies lowestLayer.children, lowerLayer.children, upperLayer.children
      ensures Valid()
      ensures Drawn() == ApplyOps(oracle, tileWidth, tileHeight, Blank(old(Drawn())),
        GridOps(CellPlan(oracle, tileWidth, tileHeight, startX, startY), GridSpan(width, tileWidth), GridSpan(height, tileHeight)))
      ensures Render() == AfterClear(old(Render()))
      ensures lowerZLayer.previousLayers == 0 && upperZLayer.previousLayers == 0
      ensures lowestLayer.children == old(lowestLayer.children) && lowerLayer.children == old(lowerLayer.children)
      ensures upperLayer.children == old(upperLayer.children)
    {
      ClearBands();
      var tileCols: nat := GridSpan(width, tileWidth);
      var tileRows: nat := GridSpan(height, tileHeight);
      PaintWindow(startX, startY, tileCols, tileRows);
    }

    /** The grid loop of `_paintAllTiles` on the window starting at tile (startX, startY). */
    method PaintWindow(startX: int, startY: int, tileCols: nat, tileRows: nat)
      requires Paintable()
      modifies lowestLayer.children, lowerLayer.children, upperLayer.children, shadowLayer
      ensures Paintable() && unchanged(lowerZLayer, upperZLayer, lowestLayer, lowerLayer, upperLayer)
      ensures Render() == old(Render())
      ensures Drawn() == ApplyOps(oracle, tileWidth, tileHeight, old(Drawn()), GridOps(CellPlan(oracle, tileWidth, tileHeight, startX, startY), tileCols, tileRows))
    {
      ghost var v0 := Drawn();
      RunsFrom(oracle, tileWidth, tileHeight, v0);
      CellPlanCells(oracle, tileWidth, tileHeight, startX, startY);
      PaintGrid(startX, startY, tileCols, tileRows, v0, imap ops | true :: ApplyOps(oracle, tileWidth, tileHeight, v0, ops),
        CellPlan(oracle, tileWidth, tileHeight, startX, startY));
    }

    /**
     * The grid loop of `_paintAllTiles`: `tileRows` rows of `tileCols` cells,
     * top to bottom, drawn by the calls `plan` gives each cell and painted as
     * `run` paints them.
     */
    method PaintGrid(startX: int, startY: int, tileCols: nat, tileRows: nat, ghost v0: View,
                     ghost run: imap<seq<PaintOp>, View>, ghost plan: (int, int) -> seq<PaintOp>)
      requires Paintable() && Runs(run, oracle, tileWidth, tileHeight, v0) && Drawn() == run[[]]
      requires PlansCells(plan, oracle, tileWidth, tileHeight, startX, startY)
      modifies lowestLayer.children, lowerLayer.children, upperLayer.children, shadowLayer
      ensures Paintable() && Render() == old(Render())
      ensures Drawn() == run[GridOps(plan, tileCols, tileRows)]
    {
      var y: nat := 0;
      while y < tileRows
        invariant y <= tileRows
        invariant Paintable() && Render() == old(Render())
        invariant Drawn() == run[GridOps(plan, tileCols, y)]
      {
        PaintRow(startX, startY, y, tileCols, v0, run, plan, GridOps(plan, tileCols, y));
        y := y + 1;
      }
    }

    /** One row of the grid loop of `_paintAllTiles`, left to right, after the calls `done`. */
    method PaintRow(startX: int, startY: int, y: nat, tileCols: nat, ghost v0: View,
                    ghost run: imap<seq<PaintOp>, View>, ghost plan: (int, int) -> seq<PaintOp>, ghost done: seq<PaintOp>)
      requires Paintable() && Runs(run, oracle, tileWidth, tileHeight, v0)
      requires PlansCells(plan, oracle, tileWidth, tileHeight, startX, startY)
      requires Drawn() == run[done]
      modifies lowestLayer.children, lowerLayer.children, upperLayer.children, shadowLayer
      ensures Paintable() && Render() == old(Render())
      ensures Drawn() == run[done + RowOps(plan, y, tileCols)]
    {
      assert done + RowOps(plan, y, 0) == done;
      var x: nat := 0;
      while x < tileCols
        invariant x <= tileCols
        invariant Paintable() && Render() == old(Render())
        invariant Drawn() == run[done + RowOps(plan, y, x)]
      {
        PaintCell(startX, startY, x, y, v0, run, plan, done);
        x := x + 1;
      }
    }

    /** Cell `x` of row `y` in the grid loop of `_paintAllTiles`, after the calls `done` and the cells before it. */
    method PaintCell(startX: int, startY: int, x: nat, y: nat, ghost v0: View,
                     ghost run: imap<seq<PaintOp>, View>, ghost plan: (int, int) -> seq<PaintOp>, ghost done: seq<PaintOp>)
      requires Paintable() && Runs(run, oracle, tileWidth, tileHeight, v0)
      requires PlansCells(plan, oracle, tileWidth, tileHeight, startX, startY)
      requires Drawn() == run[done + RowOps(plan, y, x)]
      modifies lowestLayer.children, lowerLayer.children, upperLayer.children, shadowLayer
      ensures Paintable() && Render() == old(Render())
      ensures Drawn() == run[done + RowOps(plan, y, x + 1)]
    {
      PaintTiles(startX, startY, x, y);
      RowStep(oracle, tileWidth, tileHeight, v0, done, plan, y, x);
    }

    /** `_updateLayerPositions`: both z-bands are placed so that the start tile sits at the window origin. */
    method UpdateLayerPositions(startX: int, startY: int)
      requires Valid()
      modifies lowerZLayer`positionX, lowerZLayer`positionY, upperZLayer`positionX, upperZLayer`positionY
      ensures Valid() && Drawn() == old(Drawn()) && Render() == old(Render())
      ensures lowerZLayer.previousLayers == old(lowerZLayer.previousLayers) && upperZLayer.previousLayers == old(upperZLayer.previousLayers)
      ensures lowerZLayer.positionX == LayerOffset(startX, tileWidth, originX) && upperZLayer.positionX == LayerOffset(startX, tileWidth, originX)
      ensures lowerZLayer.positionY == LayerOffset(startY, tileHeight, originY) && upperZLayer.positionY == LayerOffset(startY, tileHeight, originY)
    {
      var ox := originX.Floor;
      var oy := originY.Floor;
      lowerZLayer.positionX := startX * tileWidth - ox;
      lowerZLayer.positionY := startY * tileHeight - oy;
      upperZLayer.positionX := startX * tileWidth - ox;
      upperZLayer.positionY := startY * tileHeight - oy;
    }

    /**
     * `updateTransform`: the start tile follows the floored origin; the
     * z-bands are always repositioned, and the window is repainted exactly
     * when a repaint was requested or the start tile moved. `repainted`
     * reports which.
     */
    method UpdateTransform() returns (repainted: bool)
      requires Valid()
      modifies this`lastStartX, this`lastStartY, this`needsRepaint
      modifies lowerZLayer`positionX, lowerZLayer`positionY, upperZLayer`positionX, upperZLayer`positionY
      modifies lowerZLayer`previousLayers, upperZLayer`previousLayers, lowestLayer, lowerLayer, upperLayer, shadowLayer
      modifies lowestLayer.children, lowerLayer.children, upperLayer.children
      ensures Valid()
      ensures lastStartX == Some(StartTile(originX, margin, tileWidth)) && lastStartY == Some(StartTile(originY, margin, tileHeight))
      ensures !needsRepaint
      ensures lowerZLayer.positionX == upperZLayer.positionX == LayerOffset(StartTile(originX, margin, tileWidth), tileWidth, originX)
      ensures lowerZLayer.positionY == upperZLayer.positionY == LayerOffset(StartTile(originY, margin, tileHeight), tileHeight, originY)
      ensures repainted <==> old(needsRepaint) || old(lastStartX) != lastStartX || old(lastStartY) != lastStartY
      ensures repainted ==> Drawn() == ApplyOps(oracle, tileWidth, tileHeight, Blank(old(Drawn())),
        GridOps(CellPlan(oracle, tileWidth, tileHeight, StartTile(originX, margin, tileWidth), StartTile(originY, margin, tileHeight)),
          GridSpan(width, tileWidth), GridSpan(height, tileHeight)))
      ensures !repainted ==> Drawn() == old(Drawn())
      ensures Render() == if repainted then AfterClear(old(Render())) else old(Render())
      ensures lowestLayer.children == old(lowestLayer.children) && lowerLayer.children == old(lowerLayer.children)
      ensures upperLayer.children == old(upperLayer.children)
      ensures repainted ==> lowerZLayer.previousLayers == 0 && upperZLayer.previousLayers == 0
      ensures !repainted ==> lowerZLayer.previousLayers == old(lowerZLayer.previousLayers) && upperZLayer.previousLayers == old(upperZLayer.previousLayers)
    {
      var startX := StartTile(originX, margin, tileWidth);
      var startY := StartTile(originY, margin, tileHeight);
      // `_updateLayerPositions` runs first in the source; painting does not
      // read the band positions, so placing the bands last changes nothing.
      repainted := RepaintIfMoved(startX, startY);
      UpdateLayerPositions(startX, startY);
    }

    /** The condition of `updateTransform`: the window is repainted when a repaint was requested or the start tile moved. */
    method RepaintIfMoved(startX: int, startY: int) returns (repainted: bool)
      requires Valid()
      modifies this`lastStartX, this`lastStartY, this`needsRepaint
      modifies lowerZLayer`previousLayers, upperZLayer`previousLayers, lowestLayer, lowerLayer, upperLayer, shadowLayer
      modifies lowestLayer.children, lowerLayer.children, upperLayer.children
      ensures Valid()
      ensures lastStartX == Some(startX) && lastStartY == Some(startY) && !needsRepaint
      ensures repainted <==> old(needsRepaint) || old(lastStartX) != Some(startX) || old(lastStartY) != Some(startY)
      ensures repainted ==> Drawn() == ApplyOps(oracle, tileWidth, tileHeight, Blank(old(Drawn())),
        GridOps(CellPlan(oracle, tileWidth, tileHeight, startX, startY), GridSpan(width, tileWidth), GridSpan(height, tileHeight)))
      ensures !repainted ==> Drawn() == old(Drawn())
      ensures Render() == if repainted then AfterClear(old(Render())) else old(Render())
      ensures lowestLayer.children == old(lowestLayer.children) && lowerLayer.children == old(lowerLayer.children)
      ensures upperLayer.children == old(upperLayer.children)
      ensures repainted ==> lowerZLayer.previousLayers == 0 && upperZLayer.previousLayers == 0
      ensures !repainted ==> lowerZLayer.previousLayers == old(lowerZLayer.previousLayers) && upperZLayer.previousLayers == old(upperZLayer.previousLayers)
    {
      repainted := needsRepaint || lastStartX != Some(startX) || lastStartY != Some(startY);
      if repainted {
        Repaint(startX, startY);
      }
    }

    /** The repainting branch of `updateTransform`: the start tile is recorded and the window repainted from it. */
    method Repaint(startX: int, startY: int)
      requires Valid()
      modifies this`lastStartX, this`lastStartY, this`needsRepaint
      modifies lowerZLayer`previousLayers, upperZLayer`previousLayers, lowestLayer, lowerLayer, upperLayer, shadowLayer
      modifies lowestLayer.children, lowerLayer.children, upperLayer.children
      ensures Valid()
      ensures lastStartX == Some(startX) && lastStartY == Some(startY) && !needsRepaint
      ensures Drawn() == ApplyOps(oracle, tileWidth, tileHeight, Blank(old(Drawn())),
        GridOps(CellPlan(oracle, tileWidth, tileHeight, startX, startY), GridSpan(width, tileWidth), GridSpan(height, tileHeight)))
      ensures Render() == AfterClear(old(Render()))
      ensures lowestLayer.children == old(lowestLayer.children) && lowerLayer.children == old(lowerLayer.children)
      ensures upperLayer.children == old(upperLayer.children)
      ensures lowerZLayer.previousLayers == 0 && upperZLayer.previousLayers == 0
    {
      PaintAllTiles(startX, startY);
      MarkPainted(startX, startY);
    }

    /**
     * The bookkeeping of a repaint: the window start it painted is recorded and
     * the request is cleared. `_paintAllTiles` does not read these fields, so
     * recording them after painting rather than before changes nothing.
     */
    method MarkPainted(startX: int, startY: int)
      requires Valid()
      modifies this`lastStartX, this`lastStartY, this`needsRepaint
      ensures Valid() && Drawn() == old(Drawn()) && Render() == old(Render())
      ensures lastStartX == Some(startX) && lastStartY == Some(startY) && !needsRepaint
    {
      lastStartX, lastStartY, needsRepaint := Some(startX), Some(startY), false;
    }

    /**
     * `refresh`: the layers are rebuilt when the number of bitmaps changed
     * since the last refresh, and a repaint is always requested.
     */
    method Refresh()
      requires Valid()
      modifies this`lastBitmapLength, this`needsRepaint, lowerZLayer`Repr, upperZLayer`Repr
      modifies lowestLayer, lowerLayer, upperLayer, shadowLayer
      ensures Valid() && needsRepaint && lastBitmapLength == |bitmaps|
      ensures old(lastBitmapLength) != |bitmaps| ==>
        && EmptyLayersFor(lowestLayer, bitmaps) && EmptyLayersFor(lowerLayer, bitmaps) && EmptyLayersFor(upperLayer, bitmaps)
        && shadowLayer.rects == []
      ensures old(lastBitmapLength) == |bitmaps| ==> Drawn() == old(Drawn()) && Render() == old(Render())
      ensures old(lastBitmapLength) == |bitmaps| ==>
        && lowestLayer.children == old(lowestLayer.children) && lowerLayer.children == old(lowerLayer.children)
        && upperLayer.children == old(upperLayer.children)
    {
      if lastBitmapLength != |bitmaps| {
        UpdateBitmaps();
      }
      MarkRefreshed();
    }

    /**
     * The bookkeeping of `refresh`: the bitmap count is recorded (a no-op when
     * it did not change, and `_updateBitmaps` does not read it) and a repaint
     * is requested.
     */
    method MarkRefreshed()
      requires Valid()
      modifies this`lastBitmapLength, this`needsRepaint
      ensures Valid() && Drawn() == old(Drawn()) && Render() == old(Render())
      ensures lastBitmapLength == |bitmaps| && needsRepaint
    {
      lastBitmapLength, needsRepaint := |bitmaps|, true;
    }

    /**
     * `_updateBitmaps`: each band gets one new, empty layer per bitmap, in
     * order, and the shadow layer is cleared.
     */
    method UpdateBitmaps()
      requires Valid()
      modifies lowerZLayer`Repr, upperZLayer`Repr, lowestLayer, lowerLayer, upperLayer, shadowLayer
      ensures Valid()
      ensures EmptyLayersFor(lowestLayer, bitmaps) && EmptyLayersFor(lowerLayer, bitmaps) && EmptyLayersFor(upperLayer, bitmaps)
      ensures shadowLayer.rects == []
      ensures forall l <- lowestLayer.children + lowerLayer.children + upperLayer.children :: fresh(l)
    {
      // `new PIXI.Texture(x._baseTexture)`: a texture over the same bitmap.
      var textures := bitmaps;
      ResetLayers(textures);
      UpdateFootprints();
    }

    /** The three tile bands are given one new, empty layer per texture, and the shadows are cleared. */
    method ResetLayers(textures: seq<Texture>)
      requires Paintable()
      modifies lowestLayer, lowerLayer, upperLayer, shadowLayer
      ensures Paintable()
      ensures EmptyLayersFor(lowestLayer, textures) && EmptyLayersFor(lowerLayer, textures) && EmptyLayersFor(upperLayer, textures)
      ensures shadowLayer.rects == []
      ensures forall l <- lowestLayer.children + lowerLayer.children + upperLayer.children :: fresh(l)
    {
      ResetBands(lowestLayer, lowerLayer, upperLayer, shadowLayer, textures);
    }

    /** Each z-band's footprint is brought up to date with the layers its tile bands now own. */
    method UpdateFootprints()
      requires Paintable() && BandsHold()
      modifies lowerZLayer`Repr, upperZLayer`Repr
      ensures Valid()
      ensures lowerZLayer.Repr == LowerRepr() && upperZLayer.Repr == UpperRepr()
    {
      lowerZLayer.Repr := LowerRepr();
      upperZLayer.Repr := UpperRepr();
    }

    /** `_hackRenderer`: the animation phase handed to the shaders. */
    method HackRenderer() returns (tileAnimX: int, tileAnimY: int)
      ensures (tileAnimX, tileAnimY) == AnimationPhase(animationFrame, tileWidth, tileHeight)
    {
      var af := animationFrame % 4;
      if af == 3 {
        af := 1;
      }
      tileAnimX := af * tileWidth;
      tileAnimY := animationFrame % 3 * tileHeight;
    }
  }
}
