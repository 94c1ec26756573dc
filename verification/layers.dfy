/**
 * The tilemap's layer objects: a tile layer holding one texture's quad
 * records, a composite of tile layers (one per tileset bitmap), the shadow
 * layer of filled rectangles, and the z-band container whose cached canvas
 * is redrawn only when something in it changed.
 */
module Layers {
  import opened Wrappers
  import opened Records
  import opened Packing
  import opened Pool

  /** A texture handle: which tileset bitmap a layer draws from. */
  type Texture = nat

  /** What one GPU draw of a tile layer amounts to. */
  datatype Submission =
    | Skipped
      /** `grownTo`: byte size of a newly allocated backing store; `upload`: the range sent after repacking. */
    | Submitted(vertices: nat, grownTo: Option<nat>, upload: Option<Upload>)

  /**
   * What a tile layer keeps for rendering, apart from its records: the change
   * marker that `isModified` and the repack decision compare with the record
   * count, and the vertex buffer.
   */
  datatype BufferState = BufferState(marker: int, vbId: Option<nat>, vbArray: array?<int>)

  /** One tile layer: the records drawn from one texture, and its GPU-side buffer. */
  class RectTileLayer {
    const z: int
    const texture: Texture
    /** The composite whose `setBitmaps` created this layer. */
    ghost const owner: object
    var pointsBuf: seq<int>
    /** `undefined` until first cleared or rendered, here -1. */
    var modificationMarker: int
    var hasAnim: bool
    var vbId: Option<nat>
    /** The Float32 view of the backing store; null when there is none. */
    var vbArray: array?<int>

    ghost predicate Valid()
      reads this
    {
      |pointsBuf| % 8 == 0
    }

    function State(): LayerState
      reads this
    {
      LayerState(pointsBuf, hasAnim)
    }

    function Buffer(): BufferState
      reads this
    {
      BufferState(modificationMarker, vbId, vbArray)
    }

    constructor(z: int, texture: Texture, ghost owner: object)
      ensures this.z == z && this.texture == texture && this.owner == owner
      ensures State() == LayerState([], false) && modificationMarker == -1
      ensures vbId == None && vbArray == null
      ensures Valid()
    {
      this.z := z;
      this.texture := texture;
      this.owner := owner;
      pointsBuf := [];
      modificationMarker := -1;
      hasAnim := false;
      vbId := None;
      vbArray := null;
    }

    /** Empties the records, zeroes the marker and drops the animation flag. */
    method Clear()
      modifies this
      ensures State() == LayerState([], false) && modificationMarker == 0
      ensures vbId == old(vbId) && vbArray == old(vbArray)
      ensures Valid()
    {
      pointsBuf := [];
      modificationMarker := 0;
      hasAnim := false;
    }

    /**
     * Appends the records of one rectangle; a width that is a multiple of a
     * different height becomes a row of records `h` apart. A call that places
     * a record leaves a layer that was up to date modified.
     */
    method AddRect(u: int, v: int, x: int, y: int, tileWidth: int, tileHeight: int, animX: int, animY: int)
      requires Valid()
      modifies this
      ensures State() == AppendRect(old(State()), Rect(u, v, x, y, tileWidth, tileHeight, animX, animY))
      ensures modificationMarker == old(modificationMarker) && vbId == old(vbId) && vbArray == old(vbArray)
      ensures Valid()
      ensures |pointsBuf| == old(|pointsBuf|) + 8 * RecordCount(Rect(u, v, x, y, tileWidth, tileHeight, animX, animY))
      ensures RecordCount(Rect(u, v, x, y, tileWidth, tileHeight, animX, animY)) > 0 && old(modificationMarker == |pointsBuf|) ==>
        LayerModified(this, false)
    {
      var r := Rect(u, v, x, y, tileWidth, tileHeight, animX, animY);
      RectPointsLength(r);
      hasAnim := hasAnim || animX > 0 || animY > 0;
      if tileWidth == tileHeight {
        pointsBuf := pointsBuf + Record(r);
      } else if tileHeight != 0 && tileWidth % tileHeight == 0 {
        AppendSplit(r);
      } else {
        pointsBuf := pointsBuf + Record(r);
      }
    }

    /** Appends the records of a rectangle that splits into square tiles, left to right. */
    method AppendSplit(r: Rect)
      requires Splits(r)
      modifies this`pointsBuf
      ensures pointsBuf == old(pointsBuf) + SplitPoints(r, RecordCount(r))
    {
      var i := 0;
      while i < r.w / r.h
        invariant 0 <= i && (i <= r.w / r.h || i == 0)
        invariant pointsBuf == old(pointsBuf) + SplitPoints(r, i)
      {
        pointsBuf := pointsBuf + Record(Shifted(r, i));
        i := i + 1;
      }
      assert i == RecordCount(r);
    }

    /** The packed records sit at the start of the backing store. */
    ghost predicate Packed(useSquare: bool)
      requires Valid()
      reads this, vbArray
    {
      && vbArray != null
      && |Pack(useSquare, pointsBuf, |pointsBuf| / 8)| <= vbArray.Length
      && vbArray[..|Pack(useSquare, pointsBuf, |pointsBuf| / 8)|] == Pack(useSquare, pointsBuf, |pointsBuf| / 8)
    }

    /**
     * The repacking step of a draw: when the marker differs from the vertex
     * count, the marker takes the count and the records are packed, into a
     * new zero-filled store of the least doubling size if there is none or it
     * is too small, and the upload range is chosen.
     */
    method Repack(useSquare: bool) returns (grownTo: Option<nat>, upload: Option<Upload>)
      requires Valid() && |pointsBuf| > 0
      modifies this, vbArray
      ensures Valid() && State() == old(State()) && vbId == old(vbId)
      ensures modificationMarker == Vertices(useSquare, |pointsBuf|)
      ensures upload.Some? <==> old(modificationMarker) != Vertices(useSquare, |pointsBuf|)
      ensures upload.None? ==> grownTo.None? && unchanged(this) && (vbArray != null ==> unchanged(vbArray))
      ensures upload.Some? ==>
        Packed(useSquare) && upload.value == UploadRange(Stride(useSquare) * Vertices(useSquare, |pointsBuf|), vbArray.Length)
      ensures upload.Some? ==>
        (grownTo.Some? <==> old(vbArray) == null || 4 * old(vbArray).Length < Stride(useSquare) * Vertices(useSquare, |pointsBuf|))
      ensures grownTo.None? ==> vbArray == old(vbArray)
      ensures grownTo.Some? ==>
        var bk := grownTo.value;
        var vs := Stride(useSquare) * Vertices(useSquare, |pointsBuf|);
        && fresh(vbArray) && 4 * vbArray.Length == bk
        && bk >= vs && (bk == Stride(useSquare) || bk < 2 * vs)
        && (forall k :: |Pack(useSquare, pointsBuf, |pointsBuf| / 8)| <= k < vbArray.Length ==> vbArray[k] == 0)
    {
      grownTo, upload := None, None;
      var vertices := Vertices(useSquare, |pointsBuf|);
      if modificationMarker != vertices {
        modificationMarker := vertices;
        var vs := Stride(useSquare) * vertices;
        PackSize(useSquare, pointsBuf);
        grownTo := Reserve(Stride(useSquare), vs);
        FillVertices(vbArray, useSquare, pointsBuf);
        upload := Some(UploadRange(vs, vbArray.Length));
      }
    }

    /**
     * Makes room for `vs` bytes: keeps the store if it is large enough, and
     * otherwise replaces it by a zero-filled one of the least doubling of
     * `stride` that holds them. The old contents are not carried over.
     */
    method Reserve(stride: nat, vs: nat) returns (grownTo: Option<nat>)
      requires stride > 0 && stride % 4 == 0
      modifies this
      ensures pointsBuf == old(pointsBuf) && hasAnim == old(hasAnim) && vbId == old(vbId)
      ensures modificationMarker == old(modificationMarker)
      ensures vbArray != null && 4 * vbArray.Length >= vs
      ensures grownTo.Some? <==> old(vbArray) == null || 4 * old(vbArray).Length < vs
      ensures grownTo.None? ==> vbArray == old(vbArray)
      ensures grownTo.Some? ==>
        var bk := grownTo.value;
        && fresh(vbArray) && 4 * vbArray.Length == bk
        && bk >= vs && (bk == stride || bk < 2 * vs)
        && forall k :: 0 <= k < vbArray.Length ==> vbArray[k] == 0
    {
      grownTo := None;
      if vbArray == null || 4 * vbArray.Length < vs {
        var bk := GrowCapacity(stride, vs);
        vbArray := new int[bk / 4](_ => 0);
        grownTo := Some(bk);
      }
    }

    /**
     * One GPU draw. Nothing happens without a valid texture or records.
     * Otherwise the pool is asked for this layer's buffer; a lost one is
     * replaced, and the backing store and marker are dropped with it, which
     * forces a repack into a new store.
     */
    method RenderWebGL(tile: TileRenderer, useSquare: bool, textureValid: bool, now: int, glBuffer: nat)
      returns (sub: Submission)
      requires Valid() && tile.Valid()
      modifies this, tile, vbArray
      ensures Valid() && tile.Valid() && State() == old(State())
      ensures !textureValid || old(pointsBuf) == [] ==> sub == Skipped && unchanged(this, tile)
      ensures textureValid && old(pointsBuf) != [] ==>
        && sub.Submitted?
        && sub.vertices == Vertices(useSquare, |pointsBuf|) && sub.vertices > 0
        && modificationMarker == sub.vertices
      ensures sub.Submitted? ==>
        var swept := Swept(old(tile.vbs), old(tile.lastTimeCheck), now);
        var live := old(vbId).Some? && old(vbId).value in swept;
        // the pool: a live buffer is reused and stamped, a lost one replaced under the next id
        && (live ==> vbId == old(vbId) && tile.vbs == Touch(swept, vbId.value, now))
        && (!live ==>
              vbId == Some(old(tile.vbAutoincrement) + 1)
              && tile.vbs == swept[vbId.value := VbEntry(vbId.value, glBuffer, now, None)])
        // repacking happens exactly when the buffer was lost or the marker disagrees
        && (sub.upload.Some? <==> !live || old(modificationMarker) != sub.vertices)
        && (sub.upload.Some? ==>
              Packed(useSquare) && sub.upload.value == UploadRange(Stride(useSquare) * sub.vertices, vbArray.Length))
        // a store is allocated exactly when repacking finds none, or one too small; it never shrinks
        && (sub.upload.Some? ==>
              (sub.grownTo.Some? <==>
                 !live || old(vbArray) == null || 4 * old(vbArray).Length < Stride(useSquare) * sub.vertices))
        && (sub.grownTo.None? ==> vbArray == old(vbArray))
      ensures sub.Submitted? && sub.grownTo.Some? ==>
        var bk := sub.grownTo.value;
        var vs := Stride(useSquare) * sub.vertices;
        && fresh(vbArray) && 4 * vbArray.Length == bk
        && bk >= vs && (bk == Stride(useSquare) || bk < 2 * vs)
        && (forall k :: |Pack(useSquare, pointsBuf, |pointsBuf| / 8)| <= k < vbArray.Length ==> vbArray[k] == 0)
    {
      if !textureValid || |pointsBuf| == 0 {
        return Skipped;
      }
      var vb := tile.GetVb(vbId, now);
      if vb.None? {
        ReplaceBuffer(tile, now, glBuffer);
      }
      var grownTo, upload := Repack(useSquare);
      sub := Submitted(Vertices(useSquare, |pointsBuf|), grownTo, upload);
    }

    /** A lost buffer: the pool hands out a new one, and the backing store and marker are dropped. */
    method ReplaceBuffer(tile: TileRenderer, now: int, glBuffer: nat)
      requires Valid() && tile.Valid()
      modifies this`vbId, this`vbArray, this`modificationMarker, tile
      ensures Valid() && tile.Valid() && State() == old(State())
      ensures vbId == Some(old(tile.vbAutoincrement) + 1)
      ensures tile.vbs == old(tile.vbs)[vbId.value := VbEntry(vbId.value, glBuffer, now, None)]
      ensures vbArray == null && modificationMarker == 0
    {
      var entry := tile.CreateVb(now, glBuffer);
      vbId, vbArray, modificationMarker := Some(entry.id), null, 0;
    }
  }

  /** Distinct, well-formed tile layers. */
  ghost predicate LayersOk(ls: seq<RectTileLayer>)
    reads ls
  {
    (forall i, j :: 0 <= i < j < |ls| ==> ls[i] != ls[j]) && forall l <- ls :: l.Valid()
  }

  /** The record states of a list of tile layers, slot by slot. */
  function States(ls: seq<RectTileLayer>): (v: seq<LayerState>)
    reads ls
    ensures |v| == |ls|
  {
    seq(|ls|, i requires 0 <= i < |ls| reads ls => ls[i].State())
  }

  lemma StatesAt(ls: seq<RectTileLayer>)
    ensures forall i :: 0 <= i < |ls| ==> States(ls)[i] == ls[i].State()
  {
  }

  /** The marker and buffer of a list of tile layers, slot by slot. */
  function Buffers(ls: seq<RectTileLayer>): (v: seq<BufferState>)
    reads ls
    ensures |v| == |ls|
  {
    seq(|ls|, i requires 0 <= i < |ls| reads ls => ls[i].Buffer())
  }

  lemma BuffersAt(ls: seq<RectTileLayer>)
    ensures forall i :: 0 <= i < |ls| ==> Buffers(ls)[i] == ls[i].Buffer()
  {
  }

  /** Layers each of which kept its marker and buffer have the same buffer states. */
  twostate lemma BuffersSame(ls: seq<RectTileLayer>)
    requires forall l <- ls :: l.Buffer() == old(l.Buffer())
    ensures Buffers(ls) == old(Buffers(ls))
  {
    BuffersAt(ls);
    assert forall i :: 0 <= i < |ls| ==> Buffers(ls)[i] == old(Buffers(ls))[i];
  }

  /** What `clear` does to the markers and buffers of a band's layers: markers become 0, buffers stay. */
  function ZeroMarkers(bs: seq<BufferState>): (r: seq<BufferState>)
    ensures |r| == |bs|
  {
    seq(|bs|, i requires 0 <= i < |bs| => bs[i].(marker := 0))
  }

  /** Layers whose buffers stayed and whose markers are 0 have the buffer states `ZeroMarkers` gives. */
  lemma ZeroedBuffers(ls: seq<RectTileLayer>, before: seq<BufferState>)
    requires |before| == |ls|
    requires forall i :: 0 <= i < |ls| ==>
      ls[i].modificationMarker == 0 && ls[i].vbId == before[i].vbId && ls[i].vbArray == before[i].vbArray
    ensures Buffers(ls) == ZeroMarkers(before)
  {
    BuffersAt(ls);
    assert forall i :: 0 <= i < |ls| ==> Buffers(ls)[i] == ZeroMarkers(before)[i];
  }

  /** Only slot `k` of a list of slot states changed. */
  lemma OneSlotChanged(before: seq<LayerState>, after: seq<LayerState>, k: int)
    requires |before| == |after|
    requires forall j :: 0 <= j < |after| && j != k ==> after[j] == before[j]
    ensures 0 <= k < |after| ==> after == before[k := after[k]]
    ensures !(0 <= k < |after|) ==> after == before
  {
  }

  /** Whether a tile layer changed since its marker was set, or animates while the frame changed. */
  predicate LayerModified(l: RectTileLayer, anim: bool)
    reads l
  {
    l.modificationMarker != |l.pointsBuf| || (anim && l.hasAnim)
  }

  /** The scan in `isModified` from slot `i` on. */
  function ScanModified(ls: seq<RectTileLayer>, i: nat, anim: bool): (r: bool)
    requires i <= |ls|
    reads ls
    ensures r <==> exists j :: i <= j < |ls| && LayerModified(ls[j], anim)
    decreases |ls| - i
  {
    if i == |ls| then false else LayerModified(ls[i], anim) || ScanModified(ls, i + 1, anim)
  }

  /** The per-bitmap tile layers of one drawing band. */
  class CompositeRectTileLayer {
    const z: int
    const useSquare: bool
    var children: seq<RectTileLayer>
    var modificationMarker: int

    /** The layers are distinct and well formed, and this composite created each of them. */
    ghost predicate Valid()
      reads this, children
    {
      LayersOk(children) && forall l <- children :: l.owner == this
    }

    /** Construction with an empty bitmap list, which still runs `setBitmaps`. */
    constructor(z: int, useSquare: bool)
      ensures this.z == z && this.useSquare == useSquare
      ensures children == [] && modificationMarker == 0
      ensures Valid()
    {
      this.z := z;
      this.useSquare := useSquare;
      children := [];
      modificationMarker := 0;
    }

    /**
     * Whether the band changed: a different number of layers than at the last
     * `clearModify`, or some layer modified.
     */
    function IsModified(anim: bool): (r: bool)
      reads this, children
      ensures r <==> modificationMarker != |children| || exists j :: 0 <= j < |children| && LayerModified(children[j], anim)
    {
      modificationMarker != |children| || ScanModified(children, 0, anim)
    }

    /** Replaces the layers by one fresh, empty layer per bitmap, in order. */
    method SetBitmaps(bitmaps: seq<Texture>)
      modifies this
      ensures |children| == |bitmaps| && modificationMarker == 0
      ensures forall i :: 0 <= i < |bitmaps| ==>
        fresh(children[i]) && children[i].z == z && children[i].texture == bitmaps[i]
        && children[i].State() == LayerState([], false) && children[i].modificationMarker == -1
        && children[i].vbId == None && children[i].vbArray == null
      ensures Valid()
      ensures IsModified(false) <==> |bitmaps| > 0
    {
      var acc: seq<RectTileLayer> := [];
      for i := 0 to |bitmaps|
        invariant |acc| == i && LayersOk(acc) && forall l <- acc :: l.owner == this
        invariant forall j :: 0 <= j < i ==>
          fresh(acc[j]) && acc[j].z == z && acc[j].texture == bitmaps[j]
          && acc[j].State() == LayerState([], false) && acc[j].modificationMarker == -1
          && acc[j].vbId == None && acc[j].vbArray == null
      {
        var l := new RectTileLayer(z, bitmaps[i], this);
        acc := acc + [l];
      }
      children := acc;
      modificationMarker := 0;
    }

    /** Clears every layer and zeroes the marker. */
    method Clear()
      requires Valid()
      modifies this, children
      ensures Valid() && children == old(children)
      ensures modificationMarker == 0
      ensures forall l <- children :: l.State() == LayerState([], false) && l.modificationMarker == 0
      ensures forall l <- children :: l.vbId == old(l.vbId) && l.vbArray == old(l.vbArray)
      ensures IsModified(false) <==> |children| > 0
    {
      var i := 0;
      while i < |children|
        invariant 0 <= i <= |children| && children == old(children)
        invariant forall j :: 0 <= j < i ==> children[j].State() == LayerState([], false) && children[j].modificationMarker == 0
        invariant forall j :: i <= j < |children| ==> unchanged(children[j])
        invariant forall l <- children :: l.vbId == old(l.vbId) && l.vbArray == old(l.vbArray) && l.Valid()
      {
        children[i].Clear();
        i := i + 1;
      }
      modificationMarker := 0;
    }

    /** Marks the band and every layer as seen: the markers take the current lengths. */
    method ClearModify()
      requires Valid()
      modifies this, children
      ensures Valid() && children == old(children)
      ensures modificationMarker == |children|
      ensures forall l <- children :: l.modificationMarker == |l.pointsBuf|
      ensures forall l <- children :: l.State() == old(l.State()) && l.vbId == old(l.vbId) && l.vbArray == old(l.vbArray)
      ensures !IsModified(false)
      ensures IsModified(true) <==> exists l <- children :: l.hasAnim
    {
      modificationMarker := |children|;
      var i := 0;
      while i < |children|
        invariant 0 <= i <= |children| && children == old(children) && modificationMarker == |children|
        invariant forall j :: 0 <= j < i ==> children[j].modificationMarker == |children[j].pointsBuf|
        invariant forall j :: i <= j < |children| ==> children[j].modificationMarker == old(children[j].modificationMarker)
        invariant forall l <- children :: l.State() == old(l.State()) && l.vbId == old(l.vbId) && l.vbArray == old(l.vbArray)
      {
        children[i].modificationMarker := |children[i].pointsBuf|;
        i := i + 1;
      }
    }
  }

  /** The shadow layer: a list of filled rectangles. */
  class GraphicsLayer {
    var rects: seq<FillRect>

    constructor()
      ensures rects == []
    {
      rects := [];
    }

    method DrawRect(x: int, y: int, w: int, h: int)
      modifies this
      ensures rects == old(rects) + [FillRect(x, y, w, h)]
    {
      rects := rects + [FillRect(x, y, w, h)];
    }

    method Clear()
      modifies this
      ensures rects == []
    {
      rects := [];
    }

    /** The shadow layer never reports a change. */
    predicate IsModified(anim: bool)
      ensures !IsModified(anim)
    {
      false
    }
  }

  /** A child of a z-band: a composite of tile layers, or the shadow layer. */
  datatype ZChild = Tiles(tiles: CompositeRectTileLayer) | Shadows(shadows: GraphicsLayer)
  {
    function Obj(): object
    {
      match this
      case Tiles(c) => c
      case Shadows(g) => g
    }

    /** The tile layers a child owns: a composite's layers; none for the shadow layer. */
    function Layers(): seq<RectTileLayer>
      reads Obj()
    {
      match this
      case Tiles(c) => c.children
      case Shadows(_) => []
    }

    ghost predicate Valid()
      reads Obj(), Layers()
    {
      match this
      case Tiles(c) => c.Valid()
      case Shadows(_) => true
    }

    predicate IsModified(anim: bool)
      reads Obj(), Layers()
    {
      match this
      case Tiles(c) => c.IsModified(anim)
      case Shadows(g) => g.IsModified(anim)
    }

    /** What `clear` leaves in a child. */
    ghost predicate Cleared()
      reads Obj(), Layers()
    {
      match this
      case Tiles(c) => c.modificationMarker == 0 && forall l <- c.children :: l.State() == LayerState([], false) && l.modificationMarker == 0
      case Shadows(g) => g.rects == []
    }

    /** What `clearModify` leaves in a child: every marker at the current length. */
    ghost predicate Marked()
      reads Obj(), Layers()
    {
      match this
      case Tiles(c) => c.modificationMarker == |c.children| && forall l <- c.children :: l.modificationMarker == |l.pointsBuf|
      case Shadows(_) => true
    }
  }

  /** Clears one child of a z-band. */
  method ClearChild(ch: ZChild)
    requires ch.Valid()
    modifies ch.Obj(), ch.Layers()
    ensures ch.Valid() && ch.Cleared() && ch.Layers() == old(ch.Layers())
    ensures forall l <- ch.Layers() :: l.vbId == old(l.vbId) && l.vbArray == old(l.vbArray)
  {
    match ch {
      case Tiles(c) => c.Clear();
      case Shadows(g) => g.Clear();
    }
  }

  /** Resets the change markers of one child of a z-band; the shadow layer keeps none. */
  method ClearModifyChild(ch: ZChild)
    requires ch.Valid()
    modifies ch.Obj(), ch.Layers()
    ensures ch.Valid() && ch.Marked() && ch.Layers() == old(ch.Layers())
    ensures forall l <- ch.Layers() :: l.State() == old(l.State())
    ensures !ch.IsModified(false)
  {
    match ch {
      case Tiles(c) => c.ClearModify();
      case Shadows(_) =>
    }
  }

  /** A child none of whose objects changed keeps its layers, validity and markers. */
  twostate lemma ChildUntouched(ch: ZChild)
    requires old(ch.Valid()) && unchanged(ch.Obj())
    requires forall l <- old(ch.Layers()) :: unchanged(l)
    ensures ch.Layers() == old(ch.Layers()) && ch.Valid()
    ensures ch.Marked() == old(ch.Marked()) && ch.Cleared() == old(ch.Cleared())
    ensures forall anim :: ch.IsModified(anim) == old(ch.IsModified(anim))
    ensures forall l <- ch.Layers() :: l.State() == old(l.State())
  {
  }

  /** Two children share no object. */
  ghost predicate Disjoint(a: ZChild, b: ZChild)
    reads a.Obj(), b.Obj()
  {
    a.Obj() != b.Obj() && forall l <- a.Layers() :: l !in b.Layers()
  }

  /** A z-band: the layers drawn below or above the characters, cached as one canvas. */
  class ZLayer {
    const z: int
    var children: seq<ZChild>
    /** `undefined` before the first cache, here -1. */
    var previousLayers: int
    /** `undefined` before the first cache, here -1: animation frames are never negative. */
    var lastAnimationFrame: int
    /** The cache canvas, created at the 300 x 150 default of a new canvas element. */
    var canvasWidth: int
    var canvasHeight: int
    /** The display position of the band inside the tilemap. */
    var positionX: int
    var positionY: int
    /** The children and their tile layers. */
    ghost var Repr: set<object>

    ghost predicate Valid()
      reads this`children, this`Repr, Repr
    {
      && this !in Repr
      && (forall j :: 0 <= j < |children| ==> children[j].Obj() in Repr && forall l <- children[j].Layers() :: l in Repr)
      && (forall i, j :: 0 <= i < |children| && 0 <= j < |children| && i != j ==> Disjoint(children[i], children[j]))
      && (forall j :: 0 <= j < |children| ==> children[j].Valid())
    }

    /** Whether the cache must be redrawn for a layer of size `layerWidth` x `layerHeight` at animation frame `frame`. */
    ghost predicate Dirty(layerWidth: int, layerHeight: int, frame: nat)
      requires Valid()
      reads this, Repr
    {
      || previousLayers != |children|
      || canvasWidth != layerWidth || canvasHeight != layerHeight
      || exists ch <- children :: ch.IsModified(lastAnimationFrame != frame)
    }

    constructor(z: int)
      ensures this.z == z && children == [] && previousLayers == -1 && lastAnimationFrame == -1
      ensures canvasWidth == 300 && canvasHeight == 150 && positionX == 0 && positionY == 0
      ensures Valid() && Repr == {}
    {
      positionX, positionY := 0, 0;
      this.z := z;
      children := [];
      previousLayers := -1;
      lastAnimationFrame := -1;
      canvasWidth := 300;
      canvasHeight := 150;
      Repr := {};
    }

    /** Appends a child that shares no object with the others. */
    method AddChild(ch: ZChild)
      requires Valid() && ch.Valid() && ch.Obj() != this
      requires forall j :: 0 <= j < |children| ==> Disjoint(children[j], ch) && Disjoint(ch, children[j])
      modifies this`children, this`Repr
      ensures children == old(children) + [ch] && Valid()
      ensures Repr == old(Repr) + {ch.Obj()} + set l | l in ch.Layers()
    {
      children := children + [ch];
      Repr := Repr + {ch.Obj()} + set l | l in ch.Layers();
    }

    /** Clears every child and forgets the child count. */
    method Clear()
      requires Valid()
      modifies this`previousLayers, Repr
      ensures Valid() && previousLayers == 0
      ensures forall j :: 0 <= j < |children| ==> children[j].Cleared() && children[j].Layers() == old(children[j].Layers())
      ensures forall j :: 0 <= j < |children| ==>
        forall l <- children[j].Layers() :: l.vbId == old(l.vbId) && l.vbArray == old(l.vbArray)
    {
      var i := 0;
      while i < |children|
        invariant 0 <= i <= |children| && Valid()
        invariant forall j :: 0 <= j < |children| ==> children[j].Layers() == old(children[j].Layers())
        invariant forall j :: 0 <= j < i ==> children[j].Cleared()
        invariant forall j :: 0 <= j < |children| ==>
          forall l <- children[j].Layers() :: l.vbId == old(l.vbId) && l.vbArray == old(l.vbArray)
      {
        ClearAt(i);
        i := i + 1;
      }
      previousLayers := 0;
    }

    /** Clears child `i`; the other children are left as they are. */
    method ClearAt(i: nat)
      requires Valid() && i < |children|
      modifies children[i].Obj(), children[i].Layers()
      ensures Valid() && children[i].Cleared()
      ensures forall j :: 0 <= j < |children| ==> children[j].Layers() == old(children[j].Layers())
      ensures forall j :: 0 <= j < |children| && j != i ==> children[j].Cleared() == old(children[j].Cleared())
      ensures forall j :: 0 <= j < |children| ==>
        forall l <- children[j].Layers() :: l.vbId == old(l.vbId) && l.vbArray == old(l.vbArray)
    {
      ClearChild(children[i]);
      forall j | 0 <= j < |children| && j != i
        ensures children[j].Layers() == old(children[j].Layers()) && children[j].Valid()
        ensures children[j].Cleared() == old(children[j].Cleared())
      {
        ChildUntouched(children[j]);
      }
    }

    /**
     * Redraws the cache when it is dirty: the child count changed, the layer
     * size changed, or a child reports a change (animated layers count as
     * changed when the animation frame moved on). A redraw resets every
     * child's markers; afterwards the cache is clean for this size and frame.
     */
    method CacheIfDirty(layerWidth: int, layerHeight: int, frame: nat) returns (modified: bool)
      requires Valid()
      modifies this, Repr
      ensures Valid() && children == old(children) && Repr == old(Repr)
      ensures modified == old(Dirty(layerWidth, layerHeight, frame))
      ensures previousLayers == |children| && lastAnimationFrame == frame
      ensures canvasWidth == layerWidth && canvasHeight == layerHeight
      ensures !Dirty(layerWidth, layerHeight, frame)
      ensures modified ==> forall j :: 0 <= j < |children| ==> children[j].Marked()
      ensures !modified ==> unchanged(Repr)
      ensures forall j :: 0 <= j < |children| ==> children[j].Layers() == old(children[j].Layers())
      ensures forall j :: 0 <= j < |children| ==> forall l <- children[j].Layers() :: l.State() == old(l.State())
    {
      modified := Recheck(layerWidth, layerHeight, frame);
      if modified {
        ClearModifyAll();
      }
    }

    /**
     * The bookkeeping half of `CacheIfDirty`: records the child count, the
     * layer size and the frame, and reports whether the cache was dirty.
     */
    method Recheck(layerWidth: int, layerHeight: int, frame: nat) returns (modified: bool)
      requires Valid()
      modifies this`previousLayers, this`canvasWidth, this`canvasHeight, this`lastAnimationFrame
      ensures modified == old(Dirty(layerWidth, layerHeight, frame))
      ensures previousLayers == |children| && lastAnimationFrame == frame
      ensures canvasWidth == layerWidth && canvasHeight == layerHeight
      ensures !modified ==> !Dirty(layerWidth, layerHeight, frame)
    {
      modified := previousLayers != |children|;
      previousLayers := |children|;
      if canvasWidth != layerWidth || canvasHeight != layerHeight {
        canvasWidth, canvasHeight := layerWidth, layerHeight;
        modified := true;
      }
      if !modified {
        modified := AnyModified(lastAnimationFrame != frame);
      }
      lastAnimationFrame := frame;
    }

    /** Whether some child reports a change; the scan stops at the first that does. */
    method AnyModified(anim: bool) returns (found: bool)
      requires Valid()
      ensures found <==> exists ch <- children :: ch.IsModified(anim)
    {
      found := false;
      var i := 0;
      while i < |children|
        invariant 0 <= i <= |children|
        invariant forall j :: 0 <= j < i ==> !children[j].IsModified(anim)
      {
        if children[i].IsModified(anim) {
          found := true;
          break;
        }
        i := i + 1;
      }
    }

    /** Resets the change markers of every child. */
    method ClearModifyAll()
      requires Valid()
      modifies Repr
      ensures Valid() && (forall j :: 0 <= j < |children| ==> children[j].Marked() && children[j].Layers() == old(children[j].Layers()))
      ensures forall j :: 0 <= j < |children| ==> !children[j].IsModified(false)
      ensures forall j :: 0 <= j < |children| ==> forall l <- children[j].Layers() :: l.State() == old(l.State())
    {
      var i := 0;
      while i < |children|
        invariant 0 <= i <= |children| && Valid()
        invariant forall j :: 0 <= j < |children| ==> children[j].Layers() == old(children[j].Layers())
        invariant forall j :: 0 <= j < i ==> children[j].Marked() && !children[j].IsModified(false)
        invariant forall j :: 0 <= j < |children| ==> forall l <- children[j].Layers() :: l.State() == old(l.State())
      {
        ClearModifyAt(i);
        i := i + 1;
      }
    }

    /** Resets the markers of child `i`; the other children keep theirs. */
    method ClearModifyAt(i: nat)
      requires Valid() && i < |children|
      modifies children[i].Obj(), children[i].Layers()
      ensures Valid()
      ensures children[i].Marked() && !children[i].IsModified(false)
      ensures forall j :: 0 <= j < |children| ==> children[j].Layers() == old(children[j].Layers())
      ensures forall j :: 0 <= j < |children| && j != i ==>
        children[j].Marked() == old(children[j].Marked()) && children[j].IsModified(false) == old(children[j].IsModified(false))
      ensures forall j :: 0 <= j < |children| ==> forall l <- children[j].Layers() :: l.State() == old(l.State())
    {
      ClearModifyChild(children[i]);
      forall j | 0 <= j < |children| && j != i
        ensures children[j].Layers() == old(children[j].Layers()) && children[j].Valid()
        ensures children[j].Marked() == old(children[j].Marked())
        ensures children[j].IsModified(false) == old(children[j].IsModified(false))
        ensures forall l <- children[j].Layers() :: l.State() == old(l.State())
      {
        ChildUntouched(children[j]);
      }
    }
  }
}