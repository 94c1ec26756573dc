/**
 * The tile decoders of the WebGL tilemap: from a tile id and a destination
 * cell to the texture-set slot and the `addRect` calls that draw it, and
 * from a shadow mask to the filled quadrants. These are values; the tilemap
 * class appends them to its layers.
 *
 * The tile-id classifiers, the autotile shape tables and the map data belong
 * to the base tilemap and are kept abstract in an `Oracle`.
 */
module Decoders {
  import opened Records
  import opened JsNum

  /** One shape-table entry: the (qsx, qsy) half-tile offsets of the four quadrants. */
  type QuadTable = s: seq<(int, int)> | |s| == 4 witness [(0, 0), (0, 0), (0, 0), (0, 0)]

  /** An autotile table: shape number to its quadrant offsets, absent shapes missing. */
  type AutotileTable = map<nat, QuadTable>

  /** The classifiers, tables and map reads the decoders use but do not define. */
  datatype Oracle = Oracle(
    isVisibleTile: nat -> bool,
    isAutotile: nat -> bool,
    isTileA1: nat -> bool,
    isTileA2: nat -> bool,
    isTileA3: nat -> bool,
    isTileA4: nat -> bool,
    isTileA5: nat -> bool,
    autotileKind: nat -> nat,
    autotileShape: nat -> nat,
    isShadowingTile: nat -> bool,
    isHigherTile: nat -> bool,
    isTableTile: nat -> bool,
    isOverpassPosition: (int, int) -> bool,
    readMapData: (int, int, nat) -> nat,
    floorTable: AutotileTable,
    wallTable: AutotileTable,
    waterfallTable: AutotileTable)

  /** Tile sizes the model admits: positive and divisible by 4, so quadrant and half-quadrant sizes are whole. */
  predicate TileSizeOk(tw: int, th: int)
  {
    tw > 0 && th > 0 && tw % 4 == 0 && th % 4 == 0
  }

  /** What drawing one tile produces: the slot of `layers` it goes to and the `addRect` calls, in order. */
  datatype Decoded = Decoded(setNumber: int, rects: seq<Rect>)

  /** Whether a rectangle lies inside the `tw` x `th` cell at (dx, dy) and is non-empty. */
  predicate InCell(r: Rect, tw: int, th: int, dx: int, dy: int)
  {
    dx <= r.x && r.x + r.w <= dx + tw && dy <= r.y && r.y + r.h <= dy + th && r.w > 0 && r.h > 0
  }

  // ---------------------------------------------------------------- normal tiles

  function NormalSet(o: Oracle, id: nat): int
  {
    if o.isTileA5(id) then 4 else 5 + id / 256
  }

  /** The column of a normal tile in its sheet, in tiles: two 8-wide halves of 128 ids each. */
  function NormalCol(id: nat): nat
  {
    id / 128 % 2 * 8 + id % 8
  }

  /** The row of a normal tile in its sheet, in tiles. */
  function NormalRow(id: nat): nat
  {
    id % 256 / 8 % 16
  }

  function NormalTile(o: Oracle, id: nat, tw: int, th: int, dx: int, dy: int): Decoded
  {
    Decoded(NormalSet(o, id), [Rect(NormalCol(id) * tw, NormalRow(id) * th, dx, dy, tw, th, 0, 0)])
  }

  /**
   * A normal tile draws exactly one whole cell, unanimated, from the tile at
   * column `NormalCol(id)` and row `NormalRow(id)` of a 16 x 16-tile sheet;
   * tile 0 reads the sheet's corner.
   */
  lemma NormalTileShape(o: Oracle, id: nat, tw: int, th: int, dx: int, dy: int)
    requires TileSizeOk(tw, th)
    ensures var d := NormalTile(o, id, tw, th, dx, dy);
      |d.rects| == 1 && InCell(d.rects[0], tw, th, dx, dy)
      && d.rects[0].x == dx && d.rects[0].y == dy && d.rects[0].w == tw && d.rects[0].h == th
      && d.rects[0].u == NormalCol(id) * tw && NormalCol(id) < 16
      && d.rects[0].v == NormalRow(id) * th && NormalRow(id) < 16
      && !Animated(d.rects[0])
    ensures id == 0 ==> NormalTile(o, id, tw, th, dx, dy).rects[0].u == 0 && NormalTile(o, id, tw, th, dx, dy).rects[0].v == 0
  {
  }

  /** The sheet layout of ids: page `p` (256 ids), half `h`, row `r`, column `c` within the half. */
  lemma NormalLayout(p: nat, h: nat, r: nat, c: nat)
    requires h < 2 && r < 16 && c < 8
    ensures var id := 256 * p + 128 * h + 8 * r + c;
      id / 256 == p && NormalCol(id) == 8 * h + c && NormalRow(id) == r
  {
    var id := 256 * p + 128 * h + 8 * r + c;
    DivModUnique(id, 256, p, 128 * h + 8 * r + c);
    DivModUnique(id, 128, 2 * p + h, 8 * r + c);
    DivModUnique(2 * p + h, 2, p, h);
    DivModUnique(id, 8, 32 * p + 16 * h + r, c);
    DivModUnique(128 * h + 8 * r + c, 8, 16 * h + r, c);
    DivModUnique(16 * h + r, 16, h, r);
  }

  lemma NormalDigits(id: nat)
    ensures id == 256 * (id / 256) + 128 * (id % 256 / 128) + 8 * (id % 128 / 8) + id % 8
    ensures id % 256 / 128 < 2 && id % 128 / 8 < 16
  {
    var a, m := id / 256, id % 256;
    var h, k := m / 128, m % 128;
    DivModUnique(id, 128, 2 * a + h, k);
    DivModUnique(id, 8, 32 * a + 16 * h + k / 8, k % 8);
  }

  /** The sheet position, with the 256-id page, gives back the id. */
  lemma NormalTileInverse(id: nat)
    ensures id == 256 * (id / 256) + 128 * (NormalCol(id) / 8) + 8 * NormalRow(id) + NormalCol(id) % 8
  {
    NormalDigits(id);
    var p, h, r, c := id / 256, id % 256 / 128, id % 128 / 8, id % 8;
    NormalLayout(p, h, r, c);
    assert NormalCol(id) == 8 * h + c;
    assert (8 * h + c) / 8 == h && (8 * h + c) % 8 == c;
  }

  /** Two ids outside A5 that land in the same slot at the same sheet position are the same id. */
  lemma NormalTileInjective(o: Oracle, a: nat, b: nat)
    requires !o.isTileA5(a) && !o.isTileA5(b)
    requires NormalSet(o, a) == NormalSet(o, b)
    requires NormalCol(a) == NormalCol(b) && NormalRow(a) == NormalRow(b)
    ensures a == b
  {
    NormalTileInverse(a);
    NormalTileInverse(b);
  }

  // ---------------------------------------------------------------- autotiles

  datatype TableKind = Floor | Wall | Waterfall

  /**
   * The family data of an autotile: slot, block origin in tiles (blockX, blockY),
   * animation flags, which shape table applies and whether quadrants are
   * drawn as a table.
   */
  datatype Family = Family(setNumber: int, blockX: int, blockY: int, animX: int, animY: int, table: TableKind, isTable: bool)

  /** A1 (animated water and its decorations); kinds 0 to 3 are laid out by hand. */
  function A1Family(kind: nat): Family
  {
    if kind == 0 then Family(0, 0, 0, 2, 0, Floor, false)
    else if kind == 1 then Family(0, 0, 3, 2, 0, Floor, false)
    else if kind == 2 then Family(0, 6, 0, 0, 0, Floor, false)
    else if kind == 3 then Family(0, 6, 3, 0, 0, Floor, false)
    else
      var tx, ty := kind % 8, kind / 8;
      var blockX, blockY := tx / 4 * 8, ty * 6 + tx / 2 % 2 * 3;
      if kind % 2 == 0 then Family(0, blockX, blockY, 2, 0, Floor, false)
      else Family(0, blockX + 6, blockY, 0, 1, Waterfall, false)
  }

  /** A2 (ground): 2 x 3-tile blocks from kind row 2 on; table tiles are flagged. */
  function A2Family(kind: nat, isTable: bool): Family
  {
    Family(1, kind % 8 * 2, (kind / 8 - 2) * 3, 0, 0, Floor, isTable)
  }

  /** A3 (building roofs and walls): 2 x 2-tile wall blocks from kind row 6 on. */
  function A3Family(kind: nat): Family
  {
    Family(2, kind % 8 * 2, (kind / 8 - 6) * 2, 0, 0, Wall, false)
  }

  /** A4 (wall tops and walls): rows alternate 3-tile floor blocks and 2-tile wall blocks from kind row 10 on. */
  function A4Family(kind: nat): Family
  {
    var ty := kind / 8;
    Family(3, kind % 8 * 2, ((ty - 10) * 5 + (if ty % 2 == 1 then 1 else 0)) / 2, 0, 0,
           if ty % 2 == 1 then Wall else Floor, false)
  }

  function AutotileFamily(o: Oracle, id: nat): Family
  {
    var kind := o.autotileKind(id);
    if o.isTileA1(id) then A1Family(kind)
    else if o.isTileA2(id) then A2Family(kind, o.isTableTile(id))
    else if o.isTileA3(id) then A3Family(kind)
    else if o.isTileA4(id) then A4Family(kind)
    else Family(0, 0, 0, 0, 0, Floor, false)
  }

  /** The kind whose block starts at (blockX, blockY) in slot `setNumber`: the inverse of the family layouts. */
  function BlockKind(setNumber: int, blockX: int, blockY: int): int
  {
    if setNumber == 0 then
      var g := blockY / 6 * 8 + blockX / 8 * 4 + blockY % 6 / 3 * 2 + blockX % 8 / 6;
      if g == 1 then 2 else if g == 2 then 1 else g
    else if setNumber == 1 then (blockY / 3 + 2) * 8 + blockX / 2
    else if setNumber == 2 then (blockY / 2 + 6) * 8 + blockX / 2
    else (2 * (blockY / 5) + (if blockY % 5 == 3 then 1 else 0) + 10) * 8 + blockX / 2
  }

  lemma A1Inverse(kind: nat)
    ensures BlockKind(0, A1Family(kind).blockX, A1Family(kind).blockY) == kind
  {
    if kind >= 4 {
      A1AnimatedInverse(kind);
    } else {
      A1StillInverse(kind);
    }
  }

  lemma A1StillInverse(kind: nat)
    requires kind < 4
    ensures BlockKind(0, A1Family(kind).blockX, A1Family(kind).blockY) == kind
  {
    var f := A1Family(kind);
    if kind == 1 {
      assert f.blockX == 0 && f.blockY == 3;
      assert BlockKind(0, 0, 3) == 1;
    } else if kind == 2 {
      assert f.blockX == 6 && f.blockY == 0;
      assert BlockKind(0, 6, 0) == 2;
    } else if kind == 3 {
      assert f.blockX == 6 && f.blockY == 3;
      assert BlockKind(0, 6, 3) == 3;
    } else {
      assert f.blockX == 0 && f.blockY == 0;
      assert BlockKind(0, 0, 0) == 0;
    }
  }

  lemma A1AnimatedInverse(kind: nat)
    requires kind >= 4
    ensures BlockKind(0, A1Family(kind).blockX, A1Family(kind).blockY) == kind
  {
    var tx := kind % 8;
    var ty, h, b2, odd := kind / 8, tx / 4, tx / 2 % 2, kind % 2;
    A1Digits(kind);
    A1Block(ty, h, b2, odd);
    var bX, bY := A1Family(kind).blockX, A1Family(kind).blockY;
    assert bX == 8 * h + 6 * odd && bY == 6 * ty + 3 * b2;
    assert BlockKind(0, bX, bY) == kind;
  }

  /** An animated A1 kind, written in the digits its block is made of. */
  lemma A1Digits(kind: nat)
    requires kind >= 4
    ensures var tx := kind % 8;
      var h, b2, odd := tx / 4, tx / 2 % 2, kind % 2;
      && kind == 8 * (kind / 8) + 4 * h + 2 * b2 + odd
      && A1Family(kind).blockX == 8 * h + 6 * odd
      && A1Family(kind).blockY == 6 * (kind / 8) + 3 * b2
  {
    var tx := kind % 8;
    var t2, odd := tx / 2, tx % 2;
    DivModUnique(tx, 4, t2 / 2, 2 * (t2 % 2) + odd);
    DivModUnique(kind, 2, 4 * (kind / 8) + t2, odd);
  }

  /** The block of an animated A1 kind, read back digit by digit. */
  lemma A1Block(ty: nat, h: nat, b2: nat, odd: nat)
    requires h < 2 && b2 < 2 && odd < 2
    ensures var g := 8 * ty + 4 * h + 2 * b2 + odd;
      g >= 4 ==> BlockKind(0, 8 * h + 6 * odd, 6 * ty + 3 * b2) == g
  {
    DivModUnique(6 * ty + 3 * b2, 6, ty, 3 * b2);
    DivModUnique(8 * h + 6 * odd, 8, h, 6 * odd);
    DivModUnique(3 * b2, 3, b2, 0);
    DivModUnique(6 * odd, 6, odd, 0);
  }

  lemma A4Inverse(kind: nat)
    ensures BlockKind(3, A4Family(kind).blockX, A4Family(kind).blockY) == kind
  {
    var ty := kind / 8;
    var j := (ty - 10) / 2;
    if ty % 2 == 1 {
      assert (ty - 10) * 5 + 1 == 10 * j + 6;
      assert A4Family(kind).blockY == 5 * j + 3;
    } else {
      assert (ty - 10) * 5 == 10 * j;
      assert A4Family(kind).blockY == 5 * j;
    }
  }

  /**
   * Every autotile of families A1 to A4 draws from the block of its own kind:
   * the block origin determines the kind, so distinct kinds in one slot never
   * share a block.
   */
  lemma AutotileFamilyInverse(o: Oracle, id: nat)
    requires o.isTileA1(id) || o.isTileA2(id) || o.isTileA3(id) || o.isTileA4(id)
    ensures var f := AutotileFamily(o, id);
      BlockKind(f.setNumber, f.blockX, f.blockY) == o.autotileKind(id)
  {
    var kind := o.autotileKind(id);
    if o.isTileA1(id) {
      A1Inverse(kind);
    } else if o.isTileA4(id) && !o.isTileA2(id) && !o.isTileA3(id) {
      A4Inverse(kind);
    }
  }

  /** A4 block rows: even kind rows start 5 tiles apart, and each odd row starts 3 tiles below the row before. */
  lemma A4Rows(j: nat, tx: nat)
    requires tx < 8
    ensures A4Family((10 + 2 * j) * 8 + tx).blockY == 5 * j
    ensures A4Family((11 + 2 * j) * 8 + tx).blockY == 5 * j + 3
    ensures A4Family((10 + 2 * j) * 8 + tx).table == Floor && A4Family((11 + 2 * j) * 8 + tx).table == Wall
  {
    assert ((10 + 2 * j) * 8 + tx) / 8 == 10 + 2 * j;
    assert ((11 + 2 * j) * 8 + tx) / 8 == 11 + 2 * j;
  }

  /** Only A1 autotiles animate, and among them all kinds except 2 and 3. */
  lemma AutotileAnimation(o: Oracle, id: nat)
    ensures var f := AutotileFamily(o, id);
      (f.animX > 0 || f.animY > 0) <==> o.isTileA1(id) && o.autotileKind(id) != 2 && o.autotileKind(id) != 3
    ensures var f := AutotileFamily(o, id);
      f.animY > 0 <==> o.isTileA1(id) && o.autotileKind(id) >= 4 && o.autotileKind(id) % 2 == 1
  {
  }

  function TableFor(o: Oracle, k: TableKind): AutotileTable
  {
    match k
    case Floor => o.floorTable
    case Wall => o.wallTable
    case Waterfall => o.waterfallTable
  }

  /** Destination x of quadrant `i` of the cell at `dx`. */
  function QuadX(dx: int, w1: int, i: nat): int
  {
    dx + (i % 2) * w1
  }

  /** Destination y of quadrant `i` of the cell at `dy`. */
  function QuadY(dy: int, h1: int, i: nat): int
  {
    dy + (i / 2) * h1
  }

  /**
   * The `addRect` calls for quadrant `i` of an autotile whose shape entry
   * gives `q`. A table tile whose quadrant reads source row 1 or 5 draws a
   * full quadrant from row 3 and then the lower half of the quadrant.
   */
  function QuadrantRects(f: Family, tw: int, th: int, dx: int, dy: int, i: nat, q: (int, int)): seq<Rect>
  {
    var w1, h1 := tw / 2, th / 2;
    var qsx, qsy := q.0, q.1;
    var dx1, dy1 := QuadX(dx, w1, i), QuadY(dy, h1, i);
    if f.isTable && (qsy == 1 || qsy == 5) then
      var qsx2 := if qsy == 1 then JsRem(4 - qsx, 4) else qsx;
      [Rect((f.blockX * 2 + qsx2) * w1, (f.blockY * 2 + 3) * h1, dx1, dy1, w1, h1, f.animX, f.animY),
       Rect((f.blockX * 2 + qsx) * w1, (f.blockY * 2 + qsy) * h1, dx1, dy1 + h1 / 2, w1, h1 / 2, f.animX, f.animY)]
    else
      [Rect((f.blockX * 2 + qsx) * w1, (f.blockY * 2 + qsy) * h1, dx1, dy1, w1, h1, f.animX, f.animY)]
  }

  /** The calls for quadrants 0 to k-1, in order. */
  function QuadrantsUpTo(f: Family, t: QuadTable, tw: int, th: int, dx: int, dy: int, k: nat): seq<Rect>
    requires k <= 4
  {
    if k == 0 then [] else QuadrantsUpTo(f, t, tw, th, dx, dy, k - 1) + QuadrantRects(f, tw, th, dx, dy, k - 1, t[k - 1])
  }

  /** Whether quadrant `i` of shape entry `t` is drawn in two parts. */
  predicate SplitQuadrant(f: Family, t: QuadTable, i: nat)
    requires i < 4
  {
    f.isTable && (t[i].1 == 1 || t[i].1 == 5)
  }

  /** The number of quadrants among the first `k` that are drawn in two parts. */
  function SplitCount(f: Family, t: QuadTable, k: nat): nat
    requires k <= 4
  {
    if k == 0 then 0 else SplitCount(f, t, k - 1) + (if SplitQuadrant(f, t, k - 1) then 1 else 0)
  }

  function Autotile(o: Oracle, id: nat, tw: int, th: int, dx: int, dy: int): Decoded
  {
    var f := AutotileFamily(o, id);
    var table := TableFor(o, f.table);
    var shape := o.autotileShape(id);
    if shape in table then Decoded(f.setNumber, QuadrantsUpTo(f, table[shape], tw, th, dx, dy, 4))
    else Decoded(f.setNumber, [])
  }

  lemma {:induction false} QuadrantsUpToShape(f: Family, t: QuadTable, tw: int, th: int, dx: int, dy: int, k: nat)
    requires TileSizeOk(tw, th) && k <= 4
    ensures |QuadrantsUpTo(f, t, tw, th, dx, dy, k)| == k + SplitCount(f, t, k)
    ensures forall r <- QuadrantsUpTo(f, t, tw, th, dx, dy, k) :: InCell(r, tw, th, dx, dy)
    ensures forall r <- QuadrantsUpTo(f, t, tw, th, dx, dy, k) :: r.animX == f.animX && r.animY == f.animY
  {
    if k > 0 {
      QuadrantsUpToShape(f, t, tw, th, dx, dy, k - 1);
      QuadrantShape(f, t, tw, th, dx, dy, k - 1);
    }
  }

  /** One quadrant: one call, or two for a split one, inside the cell and with the family's flags. */
  lemma QuadrantShape(f: Family, t: QuadTable, tw: int, th: int, dx: int, dy: int, i: nat)
    requires TileSizeOk(tw, th) && i < 4
    ensures var rs := QuadrantRects(f, tw, th, dx, dy, i, t[i]);
      && |rs| == (if SplitQuadrant(f, t, i) then 2 else 1)
      && (forall r <- rs :: InCell(r, tw, th, dx, dy) && r.animX == f.animX && r.animY == f.animY)
  {
    var w1, h1 := tw / 2, th / 2;
    assert 0 <= (i % 2) * w1 <= w1 && 0 <= (i / 2) * h1 <= h1;
  }

  /**
   * An autotile whose shape is in its table draws four quadrants, each in one
   * or two calls: four calls for a non-table tile, four to eight for a table
   * tile. Every call stays inside the cell, is non-empty and carries the
   * family's animation flags. A shape missing from the table draws nothing.
   */
  lemma AutotileShape(o: Oracle, id: nat, tw: int, th: int, dx: int, dy: int)
    requires TileSizeOk(tw, th)
    ensures var d := Autotile(o, id, tw, th, dx, dy);
      var f := AutotileFamily(o, id);
      && d.setNumber == f.setNumber
      && (o.autotileShape(id) !in TableFor(o, f.table) ==> d.rects == [])
      && (o.autotileShape(id) in TableFor(o, f.table) ==>
            4 <= |d.rects| <= 8 && (!f.isTable ==> |d.rects| == 4))
      && (forall r <- d.rects :: InCell(r, tw, th, dx, dy) && r.animX == f.animX && r.animY == f.animY)
  {
    var f := AutotileFamily(o, id);
    var table := TableFor(o, f.table);
    if o.autotileShape(id) in table {
      var t := table[o.autotileShape(id)];
      QuadrantsUpToShape(f, t, tw, th, dx, dy, 4);
      SplitCountBound(f, t, 4);
    }
  }

  lemma {:induction false} SplitCountBound(f: Family, t: QuadTable, k: nat)
    requires k <= 4
    ensures SplitCount(f, t, k) <= k
    ensures !f.isTable ==> SplitCount(f, t, k) == 0
  {
    if k > 0 {
      SplitCountBound(f, t, k - 1);
    }
  }

  /**
   * Outside table tiles, quadrant `i` is the `i`-th call: a quarter of the cell
   * at (dx + (i % 2) * w1, dy + (i / 2) * h1), read from the half-tile offset
   * the shape entry gives inside the family's block.
   */
  lemma NonTableQuadrants(f: Family, t: QuadTable, tw: int, th: int, dx: int, dy: int)
    requires !f.isTable
    ensures var rs := QuadrantsUpTo(f, t, tw, th, dx, dy, 4);
      |rs| == 4 &&
      forall i :: 0 <= i < 4 ==>
        rs[i] == Rect((f.blockX * 2 + t[i].0) * (tw / 2), (f.blockY * 2 + t[i].1) * (th / 2),
                      dx + (i % 2) * (tw / 2), dy + (i / 2) * (th / 2), tw / 2, th / 2, f.animX, f.animY)
  {
    var w1, h1 := tw / 2, th / 2;
    assert QuadrantsUpTo(f, t, tw, th, dx, dy, 1) == [QuadrantRects(f, tw, th, dx, dy, 0, t[0])[0]];
    assert QuadrantsUpTo(f, t, tw, th, dx, dy, 2) == QuadrantsUpTo(f, t, tw, th, dx, dy, 1) + [QuadrantRects(f, tw, th, dx, dy, 1, t[1])[0]];
    assert QuadrantsUpTo(f, t, tw, th, dx, dy, 3) == QuadrantsUpTo(f, t, tw, th, dx, dy, 2) + [QuadrantRects(f, tw, th, dx, dy, 2, t[2])[0]];
    assert QuadrantsUpTo(f, t, tw, th, dx, dy, 4) == QuadrantsUpTo(f, t, tw, th, dx, dy, 3) + [QuadrantRects(f, tw, th, dx, dy, 3, t[3])[0]];
  }

  /**
   * A table quadrant reading row 1 or 5 is drawn as a full quadrant from row 3
   * (mirrored column `(4 - qsx) % 4` for row 1) followed by its lower half from
   * the entry's own offset, both at the quadrant's own destination and half a
   * tile wide; the first call is full height, so the two overlap in the lower
   * half of the quadrant.
   */
  lemma TableQuadrant(f: Family, tw: int, th: int, dx: int, dy: int, i: nat, q: (int, int))
    requires TileSizeOk(tw, th) && i < 4
    requires f.isTable && (q.1 == 1 || q.1 == 5)
    ensures var rs := QuadrantRects(f, tw, th, dx, dy, i, q);
      |rs| == 2
      && rs[0].u == (f.blockX * 2 + (if q.1 == 1 then JsRem(4 - q.0, 4) else q.0)) * (tw / 2)
      && rs[0].v == (f.blockY * 2 + 3) * (th / 2)
      && rs[1].u == (f.blockX * 2 + q.0) * (tw / 2)
      && rs[1].v == (f.blockY * 2 + q.1) * (th / 2)
      && rs[0].x == dx + (i % 2) * (tw / 2) && rs[1].x == rs[0].x
      && rs[0].y == dy + (i / 2) * (th / 2)
      && rs[0].w == tw / 2 && rs[1].w == tw / 2
      && rs[0].h == th / 2 && rs[1].h == th / 4
      && rs[1].y == rs[0].y + th / 4
      && (forall r <- rs :: r.animX == f.animX && r.animY == f.animY)
      && rs[0].y < rs[1].y < rs[0].y + rs[0].h
      && rs[1].y + rs[1].h == rs[0].y + rs[0].h
  {
  }

  /** For shape columns 0 to 3, `(4 - qsx) % 4` mirrors column 1 and 3 and keeps 0 and 2. */
  lemma MirrorColumn(qsx: int)
    requires 0 <= qsx < 4
    ensures JsRem(4 - qsx, 4) == [0, 3, 2, 1][qsx]
  {
  }

  // ---------------------------------------------------------------- table edges

  /**
   * The table edge drawn under an A2 table tile: the lower half of quadrant
   * rows 2 and 3 of its floor shape, side by side along the top of the cell.
   */
  function TableEdge(o: Oracle, id: nat, tw: int, th: int, dx: int, dy: int): Decoded
  {
    var kind := o.autotileKind(id);
    var shape := o.autotileShape(id);
    var blockX, blockY := kind % 8 * 2, (kind / 8 - 2) * 3;
    if o.isTileA2(id) && shape in o.floorTable then Decoded(1, EdgeRects(blockX, blockY, o.floorTable[shape], tw, th, dx, dy))
    else Decoded(1, [])
  }

  /** The two edge calls for the block at (blockX, blockY) and shape entry `t`. */
  function EdgeRects(blockX: int, blockY: int, t: QuadTable, tw: int, th: int, dx: int, dy: int): seq<Rect>
  {
    var w1, h1 := tw / 2, th / 2;
    [Rect((blockX * 2 + t[2].0) * w1, (blockY * 2 + t[2].1) * h1 + h1 / 2, dx, dy, w1, h1 / 2, 0, 0),
     Rect((blockX * 2 + t[3].0) * w1, (blockY * 2 + t[3].1) * h1 + h1 / 2, dx + w1, dy, w1, h1 / 2, 0, 0)]
  }

  /**
   * The edge goes to slot 1. It is empty unless the tile is A2 with its shape in
   * the floor table; then it is two unanimated quarter-height calls covering
   * the top quarter of the cell, left half then right half, each reading the
   * lower half of the source quadrant (the A2 block, as in `AutotileFamily`).
   */
  lemma TableEdgeShape(o: Oracle, id: nat, tw: int, th: int, dx: int, dy: int)
    requires TileSizeOk(tw, th)
    ensures var d := TableEdge(o, id, tw, th, dx, dy);
      && d.setNumber == 1
      && (d.rects != [] <==> o.isTileA2(id) && o.autotileShape(id) in o.floorTable)
      && (d.rects != [] ==>
            var t := o.floorTable[o.autotileShape(id)];
            var f := A2Family(o.autotileKind(id), false);
            |d.rects| == 2
            && (forall j :: 0 <= j < 2 ==>
                  d.rects[j].y == dy && d.rects[j].x == dx + j * (tw / 2)
                  && d.rects[j].w == tw / 2 && d.rects[j].h == th / 4
                  && d.rects[j].v == (f.blockY * 2 + t[2 + j].1) * (th / 2) + th / 4
                  && d.rects[j].u == (f.blockX * 2 + t[2 + j].0) * (tw / 2)
                  && !Animated(d.rects[j]) && InCell(d.rects[j], tw, th, dx, dy)))
  {
  }

  // ---------------------------------------------------------------- shadows

  /** Whether bit `i` of the shadow mask is set. */
  predicate Bit(bits: nat, i: nat)
  {
    bits / Pow2(i) % 2 == 1
  }

  /** The filled quarter of the cell for quadrant `i`. */
  function QuadFill(tw: int, th: int, dx: int, dy: int, i: nat): FillRect
  {
    FillRect(QuadX(dx, tw / 2, i), QuadY(dy, th / 2, i), tw / 2, th / 2)
  }

  function ShadowUpTo(bits: nat, tw: int, th: int, dx: int, dy: int, k: nat): seq<FillRect>
  {
    if k == 0 then []
    else ShadowUpTo(bits, tw, th, dx, dy, k - 1) + (if Bit(bits, k - 1) then [QuadFill(tw, th, dx, dy, k - 1)] else [])
  }

  /** The rectangles `_drawShadow` fills: none when the low four bits are clear, else one per set bit. */
  function ShadowRects(bits: nat, tw: int, th: int, dx: int, dy: int): seq<FillRect>
  {
    if bits % 16 == 0 then [] else ShadowUpTo(bits, tw, th, dx, dy, 4)
  }

  lemma LowBits(bits: nat)
    ensures bits % 16 == 0 <==> !Bit(bits, 0) && !Bit(bits, 1) && !Bit(bits, 2) && !Bit(bits, 3)
  {
    var m := bits % 16;
    NibbleBit(bits, 0);
    NibbleBit(bits, 1);
    NibbleBit(bits, 2);
    NibbleBit(bits, 3);
    NibbleZero(m);
  }

  /** The low four bits depend only on the value modulo 16. */
  lemma NibbleBit(bits: nat, i: nat)
    requires i < 4
    ensures Bit(bits, i) == (bits % 16 / Pow2(i) % 2 == 1)
  {
    var q, m := bits / 16, bits % 16;
    var p := Pow2(i);
    assert p == 1 || p == 2 || p == 4 || p == 8 by {
      assert Pow2(0) == 1 && Pow2(1) == 2 && Pow2(2) == 4 && Pow2(3) == 8;
    }
    var k := 16 / p;
    assert p * k == 16 && k % 2 == 0;
    DivModUnique(bits, p, k * q + m / p, m % p);
    DivModUnique(k * q + m / p, 2, k / 2 * q + m / p / 2, m / p % 2);
  }

  /** A nibble is zero exactly when its four bits are. */
  lemma NibbleZero(m: nat)
    requires m < 16
    ensures m == 0 <==> m / Pow2(0) % 2 == 0 && m / Pow2(1) % 2 == 0 && m / Pow2(2) % 2 == 0 && m / Pow2(3) % 2 == 0
  {
    assert Pow2(0) == 1 && Pow2(1) == 2 && Pow2(2) == 4 && Pow2(3) == 8;
  }

  lemma {:induction false} ShadowUpToMembers(bits: nat, tw: int, th: int, dx: int, dy: int, k: nat)
    requires TileSizeOk(tw, th) && k <= 4
    ensures |ShadowUpTo(bits, tw, th, dx, dy, k)| <= k
    ensures forall i :: 0 <= i < 4 ==>
      (QuadFill(tw, th, dx, dy, i) in ShadowUpTo(bits, tw, th, dx, dy, k) <==> i < k && Bit(bits, i))
    ensures forall r <- ShadowUpTo(bits, tw, th, dx, dy, k) :: exists i :: 0 <= i < k && r == QuadFill(tw, th, dx, dy, i)
  {
    if k > 0 {
      ShadowUpToMembers(bits, tw, th, dx, dy, k - 1);
      forall i | 0 <= i < 4 && i != k - 1
        ensures QuadFill(tw, th, dx, dy, i) != QuadFill(tw, th, dx, dy, k - 1)
      {
        QuadFillDistinct(tw, th, dx, dy, i, k - 1);
      }
    }
  }

  lemma QuadFillDistinct(tw: int, th: int, dx: int, dy: int, i: nat, j: nat)
    requires TileSizeOk(tw, th) && i < 4 && j < 4 && i != j
    ensures QuadFill(tw, th, dx, dy, i) != QuadFill(tw, th, dx, dy, j)
  {
    assert i % 2 != j % 2 || i / 2 != j / 2;
  }

  /**
   * The shadow fills exactly the quadrants whose bit is set among the low four
   * (bit 0 top left, 1 top right, 2 bottom left, 3 bottom right); the guard on
   * the low four bits only skips the empty case.
   */
  lemma ShadowQuadrants(bits: nat, tw: int, th: int, dx: int, dy: int)
    requires TileSizeOk(tw, th)
    ensures ShadowRects(bits, tw, th, dx, dy) == ShadowUpTo(bits, tw, th, dx, dy, 4)
    ensures |ShadowRects(bits, tw, th, dx, dy)| <= 4
    ensures forall i :: 0 <= i < 4 ==>
      (QuadFill(tw, th, dx, dy, i) in ShadowRects(bits, tw, th, dx, dy) <==> Bit(bits, i))
    ensures forall r <- ShadowRects(bits, tw, th, dx, dy) ::
      exists i :: 0 <= i < 4 && Bit(bits, i) && r == QuadFill(tw, th, dx, dy, i)
  {
    LowBits(bits);
    ShadowUpToMembers(bits, tw, th, dx, dy, 4);
    if bits % 16 == 0 {
      assert ShadowUpTo(bits, tw, th, dx, dy, 1) == [];
      assert ShadowUpTo(bits, tw, th, dx, dy, 2) == [];
      assert ShadowUpTo(bits, tw, th, dx, dy, 3) == [];
    }
    forall r <- ShadowRects(bits, tw, th, dx, dy)
      ensures exists i :: 0 <= i < 4 && Bit(bits, i) && r == QuadFill(tw, th, dx, dy, i)
    {
      var i :| 0 <= i < 4 && r == QuadFill(tw, th, dx, dy, i);
      assert Bit(bits, i);
    }
  }

  /** Mask 0b0101 fills the two left quadrants, top then bottom. */
  lemma ShadowLeftColumn(tw: int, th: int, dx: int, dy: int)
    ensures ShadowRects(5, tw, th, dx, dy) == [FillRect(dx, dy, tw / 2, th / 2), FillRect(dx, dy + th / 2, tw / 2, th / 2)]
  {
    assert Pow2(0) == 1 && Pow2(1) == 2 && Pow2(2) == 4 && Pow2(3) == 8;
    assert Bit(5, 0) && !Bit(5, 1) && Bit(5, 2) && !Bit(5, 3);
    assert ShadowUpTo(5, tw, th, dx, dy, 1) == [FillRect(dx, dy, tw / 2, th / 2)];
    assert ShadowUpTo(5, tw, th, dx, dy, 2) == [FillRect(dx, dy, tw / 2, th / 2)];
    assert ShadowUpTo(5, tw, th, dx, dy, 3) == [FillRect(dx, dy, tw / 2, th / 2), FillRect(dx, dy + th / 2, tw / 2, th / 2)];
  }

  // ---------------------------------------------------------------- any tile

  /** `_drawTile`: invisible tiles draw nothing; autotiles and normal tiles go to their decoders. */
  function DecodeTile(o: Oracle, id: nat, tw: int, th: int, dx: int, dy: int): Decoded
  {
    if !o.isVisibleTile(id) then Decoded(0, [])
    else if o.isAutotile(id) then Autotile(o, id, tw, th, dx, dy)
    else NormalTile(o, id, tw, th, dx, dy)
  }

  /** Whatever a tile draws stays inside its cell; an invisible tile draws nothing, a visible normal tile one call. */
  lemma DecodeTileInCell(o: Oracle, id: nat, tw: int, th: int, dx: int, dy: int)
    requires TileSizeOk(tw, th)
    ensures forall r <- DecodeTile(o, id, tw, th, dx, dy).rects :: InCell(r, tw, th, dx, dy)
    ensures !o.isVisibleTile(id) ==> DecodeTile(o, id, tw, th, dx, dy).rects == []
    ensures o.isVisibleTile(id) && !o.isAutotile(id) ==> |DecodeTile(o, id, tw, th, dx, dy).rects| == 1
  {
    if o.isVisibleTile(id) {
      if o.isAutotile(id) {
        AutotileShape(o, id, tw, th, dx, dy);
      } else {
        NormalTileShape(o, id, tw, th, dx, dy);
      }
    }
  }
}
