# ShaderTilemap, modelled in Dafny

`ShaderTilemap` is the WebGL tilemap plugin of the RPG Maker MV runtime
(`js/plugins/ShaderTilemap.js`). It draws a map as quads. Each visible map
cell is decoded, tile by tile, into `addRect` records. A record is eight
numbers: source corner, destination corner, size and two animation flags.
The records go into per-bitmap tile layers (`RectTileLayer`). Those layers
are grouped into three bands: the lowest band, the lower band and the
upper band. A shadow layer of filled rectangles sits between the lowest and
the lower band. Two z-bands (`ZLayer`) hold the bands: one below the
characters and one above them. Each z-band keeps a cached canvas and
redraws it only when something in it changed.

At draw time a tile layer packs its records into a float array. The array
is 7 floats per record for the point-sprite shader, or 6 vertices of 6
floats for the triangle shader. The array grows by doubling and is uploaded
whole or as a prefix. GL buffers come from a pool (`TileRenderer`) that
hands out increasing ids and sweeps out buffers older than ten seconds.

The project has one Dafny module per part of the file:

- `JsNum` (js_num.dfy): JavaScript's truncating `%`, `Math.ceil` on integers, and `1 << k`.
- `Records` (records.dfy): what `addRect` appends. This covers the split of a wide rectangle into a row of squares and the sticky `hasAnim` flag.
- `Decoders` (decoders.dfy): the pure decoders.
  - `_drawNormalTile`, `_drawAutotile`, `_drawTableEdge` and `_drawShadow` as functions from a tile id to the `addRect` calls it makes.
  - The base tilemap's classifiers, autotile tables and map reads are an abstract `Oracle` value.
- `Packing` (packing.dfy): the vertex count, the growth loop, the float layout of a record in both shader modes, and the upload rule.
- `Pool` (pool.dfy): the `TileRenderer` buffer pool as a class over a map from id to entry.
- `Layers` (layers.dfy): `RectTileLayer`, `CompositeRectTileLayer`, `GraphicsLayer` and `ZLayer` as classes whose methods update their fields.
- `Painting` (painting.dfy): what one repaint draws, as values.
  - The per-cell plan of `_paintTiles` and the row-major grid of `_paintAllTiles`.
  - The start tile and layer offset of `updateTransform`.
  - The window sizing of `_createLayers` and the animation phase of `_hackRenderer`.
- `Tilemap` (tilemap.dfy): the `ShaderTilemap` class.
  - Its drawing methods append into the layers and are proved to do what the decoders and the paint plan say.
  - `updateTransform` repaints exactly when a repaint was requested or the start tile moved.
  - `refresh` rebuilds the layers when the bitmap count changed.

The model keeps the file's quirks as written:

- `modificationMarker` has two meanings. It counts `pointsBuf` numbers in `isModified`/`clearModify` and vertices in `renderWebGL`.
- The pool's sweep reads a creation stamp (`lastTimeAccess`), while an access writes a differently named field (`lastAccessTime`).
- Split records keep the full width in their width field.
- The upload threshold compares bytes with floats.
- The first rectangle of a split table quadrant is full quadrant height.
- A grown backing store starts zero-filled, without the old contents.

## Model

| member | source | states |
|---|---|---|
| JsNum.JsRem | js/plugins/ShaderTilemap.js:1012 | JavaScript `%`: equals Dafny's `%` on a non-negative dividend; otherwise the remainder lies in (-b, 0]; in both cases `a - r` is a multiple of `b`, which fixes `r` |
| JsNum.CeilDiv | js/plugins/ShaderTilemap.js:771-772 | `Math.ceil(a / b)`: the least `r` with `a <= r * b` |
| Pool.TileRenderer.constructor | js/plugins/ShaderTilemap.js:180-188 | an empty pool, check time 0, id counter 0 |
| Pool.TileRenderer.OnContextChange | js/plugins/ShaderTilemap.js:190-194 | every buffer is forgotten; the check time and the id counter are kept |
| Pool.TileRenderer.CheckLeaks | js/plugins/ShaderTilemap.js:197-211 | when the last check is over 10000 ms old or in the future, the check time becomes `now` and exactly the entries with creation stamp `< now - 10000` are removed, the rest unchanged; otherwise nothing changes |
| Pool.TileRenderer.GetVb | js/plugins/ShaderTilemap.js:218-226 | sweeps first; an id live after the sweep is returned with `lastAccessTime` stamped; an absent id yields None |
| Pool.TileRenderer.CreateVb | js/plugins/ShaderTilemap.js:228-232 | the new id is the counter plus one, above every live key; the entry is stamped `now` and added; nothing else changes |
| Pool.TileRenderer.RemoveVb | js/plugins/ShaderTilemap.js:234-239 | the pool loses key `id` and nothing else |
| Pool.SurvivorsExact | js/plugins/ShaderTilemap.js:203-209 | a sweep keeps exactly the entries stamped at or after `now - 10000`, unchanged, and is idempotent |
| Pool.SurvivorsLater | js/plugins/ShaderTilemap.js:197-211 | a sweep at `t1` followed by one at `t2 >= t1` equals one sweep at `t2` |
| Pool.AccessDoesNotExtend | js/plugins/ShaderTilemap.js:218-226 | stamping an access leaves the set of sweep survivors unchanged: access never keeps a buffer alive |
| Pool.EntryExpires | js/plugins/ShaderTilemap.js:197-232 | an entry created at `t` does not survive any sweep after `t + 10000`, however often it was accessed |
| Pool.SweepCadence | js/plugins/ShaderTilemap.js:199-202 | after a sweep at `now`, the next is due exactly past `now + 10000` or when the clock goes back |
| Records.RectPointsLength | js/plugins/ShaderTilemap.js:290-327 | one call appends exactly 8 numbers per record it places |
| Records.RectPointsRecords | js/plugins/ShaderTilemap.js:304-314 | record `j` of a call is its record shifted by `j * h` in u and x, and every record carries the call's full width `w` |
| Records.SplitTiles | js/plugins/ShaderTilemap.js:304-305 | with positive sizes, a split call places at least two records and `count * h == w` |
| Records.SplitPointsLength | js/plugins/ShaderTilemap.js:305-314 | `k` loop iterations append `8 * k` numbers |
| Records.SplitPointsAt | js/plugins/ShaderTilemap.js:305-314 | iteration `j` of the split loop writes numbers `8j` to `8j + 8` |
| Records.PlacesRecord | js/plugins/ShaderTilemap.js:300-318 | a call places no record exactly when it splits with a non-positive ratio `w / h` (e.g. width -8, height 4), and then appends nothing |
| Records.AppendAllConcat | js/plugins/ShaderTilemap.js:290-327 | calls in sequence compose: `a` then `b` equals `a + b` |
| Records.AppendAllAppends | js/plugins/ShaderTilemap.js:290-327 | calls only append, keep the length a multiple of 8, and leave `hasAnim` set iff it was set or some call had a positive animation flag |
| Packing.FloatsPerRecord | js/plugins/ShaderTilemap.js:358-361 | the floats per record times 4 equal the bytes per vertex times the vertices per quad |
| Packing.PackLength | js/plugins/ShaderTilemap.js:376-434 | packing `n` records writes `n` times the floats per record |
| Packing.PackAt | js/plugins/ShaderTilemap.js:376-434 | record `i` occupies floats `i*F` to `(i+1)*F` of the packing and nothing else does |
| Packing.PackSize | js/plugins/ShaderTilemap.js:358-361 | 4 times the packed float count equals `stride * vertices`, the byte count `vs` |
| Packing.RectCorners | js/plugins/ShaderTilemap.js:392-433 | triangle mode writes the corners top-left, top-right, bottom-right, top-left, bottom-right, bottom-left, each as position, texture position and animation flags |
| Packing.RectRoundTrip | js/plugins/ShaderTilemap.js:392-433 | a record is recovered exactly from its six triangle vertices |
| Packing.SquareRoundTrip | js/plugins/ShaderTilemap.js:378-387 | point mode drops the height: a record is recovered from its 7 floats iff its width equals its height |
| Packing.GrowCapacity | js/plugins/ShaderTilemap.js:364-367 | the capacity is `stride * 2^k`, at least `vs`, and is either `stride` or below `2 * vs` (the least such doubling) |
| Packing.UploadUnits | js/plugins/ShaderTilemap.js:435-440 | the prefix branch is taken iff the array holds 8 times the packed floats; it then sends 4 times the packed floats, still within the array |
| Packing.UploadAfterGrowth | js/plugins/ShaderTilemap.js:362-438 | right after the store grew, the whole array is uploaded |
| Packing.FillVertices | js/plugins/ShaderTilemap.js:374-434 | the packing loop leaves the packing of all records at the start of the array and the rest untouched |
| Packing.AppendBlock | js/plugins/ShaderTilemap.js:379-433 | one iteration of the packing loop extends the packed prefix by one record |
| Layers.RectTileLayer.constructor | js/plugins/ShaderTilemap.js:263-268 | an empty layer with the given z and texture, no buffer, marker undefined |
| Layers.RectTileLayer.Clear | js/plugins/ShaderTilemap.js:270-274 | the records and the animation flag are dropped and the marker is zeroed; the buffer is kept |
| Layers.RectTileLayer.AddRect | js/plugins/ShaderTilemap.js:290-327 | the layer's state becomes what `AppendRect` gives for the call, `8 * RecordCount` numbers longer; the marker and buffer are unchanged, so a call that places at least one record leaves an up-to-date layer modified (`isModified(false)` true) |
| Layers.RectTileLayer.AppendSplit | js/plugins/ShaderTilemap.js:304-314 | the split loop appends exactly the `w / h` shifted records |
| Layers.RectTileLayer.Repack | js/plugins/ShaderTilemap.js:358-440 | repacks exactly when the marker differs from the vertex count; the marker then holds the vertex count, the store holds the packing and the upload range follows the rule; the store is replaced iff there is none or it is too small |
| Layers.RectTileLayer.Reserve | js/plugins/ShaderTilemap.js:362-372 | a too-small or missing store is replaced by a fresh zero-filled one of the least doubling size; old contents are not copied |
| Layers.RectTileLayer.RenderWebGL | js/plugins/ShaderTilemap.js:329-446 | skips without a valid texture or records; otherwise a live buffer is reused and stamped, and a lost one is replaced under the next id with the store and marker dropped; a repack happens iff the buffer was lost or the marker disagrees, and the marker ends as the vertex count |
| Layers.RectTileLayer.ReplaceBuffer | js/plugins/ShaderTilemap.js:349-354 | a lost buffer: the pool's next id is taken, the store is dropped and the marker zeroed |
| Layers.ScanModified | js/plugins/ShaderTilemap.js:531-537 | the scan is true iff some layer from `i` on has a marker different from its buffer length, or animates when `anim` holds |
| Layers.CompositeRectTileLayer.constructor | js/plugins/ShaderTilemap.js:458-462 | a band with no layers and marker 0 |
| Layers.CompositeRectTileLayer.IsModified | js/plugins/ShaderTilemap.js:526-538 | modified iff the marker differs from the layer count or some layer is modified |
| Layers.CompositeRectTileLayer.SetBitmaps | js/plugins/ShaderTilemap.js:464-469 | one fresh empty layer per bitmap, in order, marker 0; afterwards the band reports modified iff there is a bitmap |
| Layers.CompositeRectTileLayer.Clear | js/plugins/ShaderTilemap.js:471-475 | every layer is emptied with its marker zeroed, the band marker is 0, and the band reports modified iff it has a layer |
| Layers.CompositeRectTileLayer.ClearModify | js/plugins/ShaderTilemap.js:540-546 | every marker takes its current length; afterwards `isModified(false)` is false and `isModified(true)` holds iff some layer animates |
| Layers.GraphicsLayer.constructor | js/plugins/ShaderTilemap.js:548-551 | a shadow layer with no rectangles |
| Layers.GraphicsLayer.DrawRect | js/plugins/ShaderTilemap.js:1077 | one filled rectangle is appended |
| Layers.GraphicsLayer.Clear | js/plugins/ShaderTilemap.js:739 | all rectangles are dropped |
| Layers.GraphicsLayer.IsModified | js/plugins/ShaderTilemap.js:576-578 | the shadow layer never reports a change |
| Layers.ClearChild | js/plugins/ShaderTilemap.js:596-597 | clearing one child of a z-band leaves it cleared (its marker and its layers' markers 0, no records) and owning the same layers; every layer keeps its `vbId` and `vbArray` |
| Layers.ClearModifyChild | js/plugins/ShaderTilemap.js:580-581 | one child's markers are reset (a no-op for the shadow layer); it then reports no change without animation |
| Layers.ZLayer.constructor | js/plugins/ShaderTilemap.js:589-592 | a z-band with no children and undefined child count and frame |
| Layers.ZLayer.AddChild | js/plugins/ShaderTilemap.js:785-788 | the child is appended to the z-band |
| Layers.ZLayer.Clear | js/plugins/ShaderTilemap.js:594-599 | every child is cleared (markers 0, no records) and the child count is forgotten (0); every layer keeps its `vbId` and `vbArray` |
| Layers.ZLayer.ClearAt | js/plugins/ShaderTilemap.js:596-597 | child `i` is cleared and the other children are left as they were; every layer keeps its `vbId` and `vbArray` |
| Layers.ZLayer.CacheIfDirty | js/plugins/ShaderTilemap.js:601-639 | reports dirty iff the child count changed, the canvas size differs from the layer size, or some child is modified (animation counting when the frame moved); when dirty every child's markers are reset; afterwards the cache is clean and records count, size and frame; no record changes |
| Layers.ZLayer.Recheck | js/plugins/ShaderTilemap.js:604-624 | the decision of `cacheIfDirty`, with the count, size and frame recorded |
| Layers.ZLayer.AnyModified | js/plugins/ShaderTilemap.js:616-623 | the scan finds a change iff some child is modified |
| Layers.ZLayer.ClearModifyAll | js/plugins/ShaderTilemap.js:629-632 | every child's markers are reset and none reports a change without animation; no record changes |
| Layers.ZLayer.ClearModifyAt | js/plugins/ShaderTilemap.js:630 | resetting child `i` leaves the other children's markers as they were |
| Decoders.NormalTileShape | js/plugins/ShaderTilemap.js:910-928 | a normal tile makes exactly one whole-cell, unanimated call at (dx, dy), from column `id/128%2*8 + id%8` and row `id%256/8%16` of a 16 x 16 sheet |
| Decoders.NormalLayout | js/plugins/ShaderTilemap.js:916-922 | id `256p + 128h + 8r + c` lands on page `p`, column `8h + c`, row `r` |
| Decoders.NormalTileInverse | js/plugins/ShaderTilemap.js:916-922 | the page and sheet position give back the id |
| Decoders.NormalTileInjective | js/plugins/ShaderTilemap.js:913-922 | outside A5, two ids with the same slot and sheet position are equal |
| Decoders.A1Inverse | js/plugins/ShaderTilemap.js:950-975 | the A1 block origin determines the kind |
| Decoders.A1StillInverse | js/plugins/ShaderTilemap.js:952-963 | the same for the hand-placed kinds 0 to 3 |
| Decoders.A1AnimatedInverse | js/plugins/ShaderTilemap.js:964-975 | the same for kinds 4 and above |
| Decoders.A4Inverse | js/plugins/ShaderTilemap.js:986-993 | the A4 block origin determines the kind |
| Decoders.AutotileFamilyInverse | js/plugins/ShaderTilemap.js:938-993 | for every A1 to A4 tile, the block origin in its slot gives back its kind, so distinct kinds never share a block |
| Decoders.A4Rows | js/plugins/ShaderTilemap.js:986-993 | A4 floor rows start 5 tiles apart and use the floor table; each wall row starts 3 tiles below the floor row before it and uses the wall table |
| Decoders.AutotileAnimation | js/plugins/ShaderTilemap.js:948-975 | an autotile animates iff it is A1 and not kind 2 or 3; it animates vertically iff it is an odd A1 kind from 4 on |
| Decoders.QuadrantShape | js/plugins/ShaderTilemap.js:1000-1021 | a quadrant makes two calls when split, one otherwise, each inside the cell with the family's flags |
| Decoders.QuadrantsUpToShape | js/plugins/ShaderTilemap.js:1000-1021 | the first `k` quadrants make `k` calls plus one per split quadrant, all inside the cell with the family's flags |
| Decoders.SplitCountBound | js/plugins/ShaderTilemap.js:1007 | at most one extra call per quadrant, and none for a non-table tile |
| Decoders.AutotileShape | js/plugins/ShaderTilemap.js:995-1022 | an autotile goes to its family's slot; a shape missing from the table draws nothing; otherwise 4 to 8 calls inside the cell with the family's flags |
| Decoders.NonTableQuadrants | js/plugins/ShaderTilemap.js:1000-1021 | for a non-table tile, quadrant `i` is one `w1 x h1` call at `(dx + (i%2)*w1, dy + (i/2)*h1)` from the entry's offset inside the block |
| Decoders.TableQuadrant | js/plugins/ShaderTilemap.js:1007-1017 | a split table quadrant is a full `w1 x h1` call at `(dx1, dy1) = (dx + (i%2)*w1, dy + (i/2)*h1)` from row 3 (column `(4-qsx)%4` when qsy is 1), then a `w1 x h1/2` call at `(dx1, dy1 + h1/2)` from the entry's own offset; both carry the family's animation flags |
| Decoders.MirrorColumn | js/plugins/ShaderTilemap.js:1011-1012 | `(4 - qsx) % 4` equals `[0, 3, 2, 1][qsx]` |
| Decoders.TableEdgeShape | js/plugins/ShaderTilemap.js:1033-1059 | slot 1; calls are made iff the tile is A2 and its shape has a floor entry; they are then two `w1 x h1/2` calls along the top of the cell from entries 2 and 3, offset `h1/2` down in the source |
| Decoders.LowBits | js/plugins/ShaderTilemap.js:1070 | `bits & 0x0f` is zero iff none of bits 0 to 3 is set |
| Decoders.ShadowUpToMembers | js/plugins/ShaderTilemap.js:1073-1079 | after `k` iterations the fills are exactly the quadrants below `k` whose bit is set |
| Decoders.ShadowQuadrants | js/plugins/ShaderTilemap.js:1068-1081 | the shadow fills exactly the quadrants whose bit is set among the low four, at most four, and nothing else |
| Decoders.ShadowLeftColumn | js/plugins/ShaderTilemap.js:1068-1081 | mask 0b0101 fills quadrants 0 and 2 |
| Decoders.DecodeTileInCell | js/plugins/ShaderTilemap.js:892-900 | whatever a tile draws stays inside its cell; an invisible tile draws nothing; a visible normal tile makes one call |
| Painting.CellLayout | js/plugins/ShaderTilemap.js:835-882 | a cell draws map layers 0, 1, the shadow, the table edge when shown, then layers 2, 3, all at `(x * tw, y * th)` |
| Painting.CellBands | js/plugins/ShaderTilemap.js:849-881 | a higher tile always goes up; a layer-0 or layer-1 tile goes to the upper band iff it is higher and to the lowest band otherwise, never to the lower band; layers 2 and 3 never go to the lowest band, and go up iff higher or on an overpass |
| Painting.ApplyOpsExtends | js/plugins/ShaderTilemap.js:835-882 | painting only draws: no band gains or loses a layer, every layer's records and the shadow list only grow, and an animated layer stays animated |
| Painting.CellsLength | js/plugins/ShaderTilemap.js:817-823 | the window has `cols * rows` cells |
| Painting.CellsOrder | js/plugins/ShaderTilemap.js:819-823 | cell (x, y) is painted at position `y * cols + x`: rows top to bottom, each left to right |
| Painting.GridOpsCells | js/plugins/ShaderTilemap.js:819-823 | the grid loop issues exactly its cells' calls in row-major order |
| Painting.StartTileBounds | js/plugins/ShaderTilemap.js:747-750 | the start tile is the unique `s` with `tile * s <= floor(origin) - margin < tile * (s + 1)` |
| Painting.StartTileScroll | js/plugins/ShaderTilemap.js:747-750 | scrolling by one tile moves the start by exactly one |
| Painting.LayerOffsetRange | js/plugins/ShaderTilemap.js:798-805 | the z-band offset lies in `(-margin - tile, -margin]` |
| Painting.GridCoverage | js/plugins/ShaderTilemap.js:771-774 | the window spans at least one and less than two tiles more than the extent, and once offset reaches past `extent - margin` |
| Painting.AnimationCycle | js/plugins/ShaderTilemap.js:684-690 | `tileAnimX = [0,1,2,1][frame % 4] * tw`, `tileAnimY = (frame % 3) * th`, repeating every 12 frames |
| Tilemap.CreateLowerBand | js/plugins/ShaderTilemap.js:779-787 | a new z-band at z 0 holding, in order, a new empty lowest band, shadow layer and lower band |
| Tilemap.CreateUpperBand | js/plugins/ShaderTilemap.js:780-788 | a new z-band at z 4 holding a new empty upper band |
| Tilemap.ClearLowerZ | js/plugins/ShaderTilemap.js:814 | clearing the lower z-band empties every layer of the lowest and lower bands and the shadows; both bands' markers and all their layers' markers become 0, and the layers keep their vertex buffers |
| Tilemap.ClearUpperZ | js/plugins/ShaderTilemap.js:815 | clearing the upper z-band empties every layer of the upper band; the band's and its layers' markers become 0, and the layers keep their vertex buffers |
| Tilemap.A4RowFloor | js/plugins/ShaderTilemap.js:989 | the floating-point `Math.floor((ty - 10) * 2.5 + (odd ? 0.5 : 0))` equals the whole-number block row `A4Family` uses |
| Tilemap.ShaderTilemap.constructor | js/plugins/ShaderTilemap.js:767-790 | the z-bands and empty bands are created once, in the source's order and z; the window is sized and a repaint requested |
| Tilemap.ShaderTilemap.CreateLayers | js/plugins/ShaderTilemap.js:767-775 | the window is `ceil(extent / tile) + 1` tiles, covering the extent plus at least one tile and less than two; a repaint is requested |
| Tilemap.ShaderTilemap.DrawTile | js/plugins/ShaderTilemap.js:892-900 | the layers' states change exactly as the decoded calls appended to the decoded slot, if it exists. Every layer's change marker, `vbId` and `vbArray` stay. |
| Tilemap.ShaderTilemap.DrawNormalTile | js/plugins/ShaderTilemap.js:910-928 | the normal tile's call is appended to its slot; a missing slot receives nothing. Every layer's change marker, `vbId` and `vbArray` stay. |
| Tilemap.ShaderTilemap.DrawAutotile | js/plugins/ShaderTilemap.js:938-1023 | the autotile's calls are appended to its family's slot; a missing slot or shape entry draws nothing. Every layer's change marker, `vbId` and `vbArray` stay. |
| Tilemap.ShaderTilemap.DrawQuadrants | js/plugins/ShaderTilemap.js:998-1021 | the quadrant loop appends exactly the four quadrants' calls, in order. The layer's change marker, `vbId` and `vbArray` stay. |
| Tilemap.ShaderTilemap.DrawTableEdge | js/plugins/ShaderTilemap.js:1033-1059 | the edge calls are appended to slot 1 when it exists. Every layer's change marker, `vbId` and `vbArray` stay. |
| Tilemap.ShaderTilemap.DrawEdgeHalves | js/plugins/ShaderTilemap.js:1046-1056 | the edge loop appends exactly the two edge calls. The layer's change marker, `vbId` and `vbArray` stay. |
| Tilemap.ShaderTilemap.DrawShadow | js/plugins/ShaderTilemap.js:1068-1081 | the shadow rectangles of the mask are appended to the shadow layer |
| Tilemap.ShaderTilemap.DrawInBand | js/plugins/ShaderTilemap.js:849-880 | drawing into one band changes only that band, as the tile's call on the view says. The markers and vertex buffers of every band and layer stay. |
| Tilemap.ShaderTilemap.DrawInto | js/plugins/ShaderTilemap.js:892-900 | drawing into one band's layers leaves the other bands' layers unchanged. Every layer of all three bands keeps its marker and vertex buffer. |
| Tilemap.ShaderTilemap.DrawEdgeInLower | js/plugins/ShaderTilemap.js:863 | the table edge goes into the lower band only. The markers and vertex buffers of every band and layer stay. |
| Tilemap.ShaderTilemap.DrawShadowOp | js/plugins/ShaderTilemap.js:860 | the shadow goes into the shadow layer only. The markers and vertex buffers of every band and layer stay. |
| Tilemap.ShaderTilemap.PaintTiles | js/plugins/ShaderTilemap.js:835-882 | painting cell (x, y) changes what is drawn exactly as the cell's plan says. The markers and vertex buffers of every band and layer stay. |
| Tilemap.ShaderTilemap.PaintGround | js/plugins/ShaderTilemap.js:849-860 | layers 0 and 1 go up when higher and to the lowest band otherwise; then the shadow. The markers and vertex buffers of every band and layer stay. |
| Tilemap.ShaderTilemap.PaintEdge | js/plugins/ShaderTilemap.js:861-865 | the edge of the table above is drawn iff it is a table, this cell's layer 1 is not, and layer 0 casts no shadow. The markers and vertex buffers of every band and layer stay. |
| Tilemap.ShaderTilemap.PaintObjects | js/plugins/ShaderTilemap.js:867-881 | layers 2 and 3 go up on an overpass cell or when higher, and to the lower band otherwise. The markers and vertex buffers of every band and layer stay. |
| Tilemap.ShaderTilemap.ClearBands | js/plugins/ShaderTilemap.js:814-815 | clearing both z-bands leaves every layer empty and no shadow, with the child counts forgotten. Every band's and layer's marker becomes 0; every vertex buffer stays. |
| Tilemap.ShaderTilemap.ClearLowerBand | js/plugins/ShaderTilemap.js:814 | the lowest and lower bands and the shadows are emptied; the upper band is unchanged. The lowest and lower bands' markers and their layers' markers become 0; every vertex buffer and the upper band's markers stay. |
| Tilemap.ShaderTilemap.ClearUpperBand | js/plugins/ShaderTilemap.js:815 | the upper band is emptied; the other bands and the shadows are unchanged. The upper band's marker and its layers' markers become 0; every vertex buffer and the other bands' markers stay. |
| Tilemap.ShaderTilemap.PaintAllTiles | js/plugins/ShaderTilemap.js:813-825 | what is drawn afterwards is the cleared view with every window cell's plan applied, in row-major order. Every band's and layer's marker becomes 0; every vertex buffer stays. |
| Tilemap.ShaderTilemap.PaintWindow | js/plugins/ShaderTilemap.js:817-823 | the grid loop applies the cell plans of the whole window. The markers and vertex buffers of every band and layer stay. |
| Tilemap.ShaderTilemap.PaintGrid | js/plugins/ShaderTilemap.js:819-823 | after the loop, every row's calls have been applied, top to bottom. The markers and vertex buffers of every band and layer stay. |
| Tilemap.ShaderTilemap.PaintRow | js/plugins/ShaderTilemap.js:820-822 | one row's cells are applied, left to right. The markers and vertex buffers of every band and layer stay. |
| Tilemap.ShaderTilemap.PaintCell | js/plugins/ShaderTilemap.js:821 | one more cell of the row is applied. The markers and vertex buffers of every band and layer stay. |
| Tilemap.ShaderTilemap.UpdateLayerPositions | js/plugins/ShaderTilemap.js:798-805 | both z-bands are placed at `start * tile - floor(origin)`; nothing drawn changes. The markers and vertex buffers of every band and layer and both z-bands' child counts stay. |
| Tilemap.ShaderTilemap.UpdateTransform | js/plugins/ShaderTilemap.js:746-761 | the start tile follows the floored origin; both z-bands are always repositioned; the window is repainted iff a repaint was requested or the start moved, and otherwise nothing drawn changes; afterwards no repaint is pending. Every band keeps its layers; on a repaint every marker becomes 0 and every vertex buffer stays, and otherwise all markers and buffers stay. Both z-bands' child counts become 0 on a repaint and stay otherwise. |
| Tilemap.ShaderTilemap.RepaintIfMoved | js/plugins/ShaderTilemap.js:752-758 | the repaint condition, and the start recorded either way. Every band keeps its layers; on a repaint every marker becomes 0 and every vertex buffer stays, and otherwise all markers and buffers stay. Both z-bands' child counts become 0 on a repaint and stay otherwise. |
| Tilemap.ShaderTilemap.Repaint | js/plugins/ShaderTilemap.js:754-757 | the start is recorded, the request cleared, and the window repainted from the start. Every band's and layer's marker becomes 0; every vertex buffer stays. Both z-bands' child counts become 0. |
| Tilemap.ShaderTilemap.MarkPainted | js/plugins/ShaderTilemap.js:754-757 | the start is recorded and the request cleared; nothing drawn changes. The markers and vertex buffers of every band and layer stay. |
| Tilemap.ShaderTilemap.Refresh | js/plugins/ShaderTilemap.js:720-726 | when the bitmap count changed, every band gets one new layer per bitmap, with no records, no marker (-1) and no vertex buffer; each band's marker is 0, so it reports a change iff there is a bitmap; the shadows are cleared. Otherwise nothing drawn changes and every band keeps its layers, markers and buffers. The count is recorded and a repaint requested |
| Tilemap.ShaderTilemap.MarkRefreshed | js/plugins/ShaderTilemap.js:722-725 | the count is recorded and a repaint requested; nothing drawn changes. The markers and vertex buffers of every band and layer stay. |
| Tilemap.ShaderTilemap.UpdateBitmaps | js/plugins/ShaderTilemap.js:734-740 | every band gets one new layer per bitmap, in order, drawing from that bitmap, with no records, no marker (-1) and no vertex buffer; each band's marker is 0, so it reports a change iff there is a bitmap; the shadows are cleared |
| Tilemap.ShaderTilemap.ResetLayers | js/plugins/ShaderTilemap.js:736-739 | the three `setBitmaps` calls and the shadow `clear`: per band, one new layer per texture with no records, marker -1 and no vertex buffer, band marker 0, and a change reported iff there is a texture |
| Tilemap.ShaderTilemap.HackRenderer | js/plugins/ShaderTilemap.js:684-690 | the phase handed to the shaders is the animation phase of the current frame |

## Left out

- Shaders and GL: the shader sources and constructors, `bindBuffer`, texture binding, `samplerSize`, `bufferData`/`bufferSubData`/`drawArrays` and the projection setup in `CompositeRectTileLayer.renderWebGL` are GPU calls. A draw is summarised as a `Submission`: the vertex count, the grown size and the upload range.
- Canvas drawing: `renderCanvas` of every layer, the z-band's canvas compositing, `clearRect` and `layerTransform`. Only the dirtiness decision of `cacheIfDirty` and its `clearModify` calls are kept. A new canvas is taken at the 300 x 150 default size of a canvas element.
- PIXI scene-graph inheritance, `registerPlugin`, `_sortChildren` and the transform propagation at the end of `updateTransform`. Layers are plain classes, and a z-band's position is two integer fields.
- `beginFill`/`endFill` on the shadow layer: they only set the fill colour.
- `Date.now()` is the parameter `now`. A new GL buffer handle is the parameter `glBuffer`. A texture's validity is the parameter `textureValid`.
- `PluginManager.parameters`, `Spriteset_Map.createTilemap` and `$gameMap` are application wiring. The square-shader choice is a constructor parameter.
- The base tilemap's `isVisibleTile`, `isAutotile`, `isTileA1`–`A5`, `getAutotileKind`, `getAutotileShape`, `isShadowingTile`, `_isHigherTile`, `_isTableTile`, `_isOverpassPosition`, `_readMapData` and its three autotile tables are not in this file. They are the abstract fields of `Oracle`. Tile ids, kinds, shapes and shadow bits are non-negative.
- `CompositeRectTileLayer.addRect` is not called by the tilemap, which appends to `layers[setNumber]` directly, so it is not part of this model.
- `new PIXI.Texture(x._baseTexture)` in `_updateBitmaps` is a new texture over the same bitmap, modelled as that bitmap's handle.
- Tile sizes are positive multiples of 4, so half and quarter sizes are whole numbers. Origins are reals, and only their floors are used.
- Window extents: the tilemap's `width` and `height` are whole numbers here. The source computes `Math.ceil(width / tileWidth) + 1` and would also accept fractional sizes, which round up the same way.
- `animX | 0` and the other 32-bit truncations are identity on the values drawn. The Float32 storage of the vertex array is modelled as whole numbers, without rounding.
- Values the source leaves `undefined` until first set are modelled by values that differ from everything they are compared with: a marker of -1, a child count of -1, a frame of -1, a bitmap count of -1, and `None` for the last start tile.
- The id counter is a class-wide static in the source. Here it is a field of the one pool.
- Pool.TileRenderer.RemoveVb: the `deleteBuffer` call, which is passed the entry rather than its buffer, is not modelled. Only the removal from the map is.
- Pool.TileRenderer.CheckLeaks: the `deleteBuffer` calls on swept buffers are not modelled.
- Layers.ZLayer.CacheIfDirty: does not state what is redrawn on the canvas, only the decision, the markers and the recorded count, size and frame.
- Layers.RectTileLayer.RenderWebGL: does not model the draw mode or the GL calls. It states the pool, marker, store and upload decisions.
- Tilemap.ShaderTilemap.UpdateTransform: the source places the z-bands before repainting. Here they are placed after, which is the same because painting does not read the positions. The `repainted` result only reports which branch ran.
- Tilemap.ShaderTilemap.Refresh: the source records the bitmap count before `_updateBitmaps`. Here it is recorded after, which is the same because `_updateBitmaps` does not read it.
- Tilemap.ShaderTilemap.Repaint: the source records the start tile before `_paintAllTiles`. Here it is recorded after, which is the same because painting does not read it.
- Tilemap.ShaderTilemap.constructor: covers the first `_createLayers`. Later calls are `CreateLayers`, which only resize the window.
- `ShaderTilemap.renderWebGL` only calls `_hackRenderer` before handing over to PIXI. `HackRenderer` returns the phase instead of writing it into the renderer.
- Ghost bookkeeping the source has no counterpart for: the owner tag of each tile layer and the footprint `Repr` of each z-band.
