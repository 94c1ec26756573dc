/**
 * The quad records a tile layer accumulates. One `addRect` call appends eight
 * numbers per record to the layer's flat `pointsBuf` and may set its sticky
 * `hasAnim` flag; this module states, as values, what one call and a sequence
 * of calls do to that part of a layer.
 */
module Records {
  import opened JsNum

  /**
   * The arguments of one `addRect` call: source corner (u, v), destination
   * corner (x, y), size (w, h) and the two animation flags.
   */
  datatype Rect = Rect(u: int, v: int, x: int, y: int, w: int, h: int, animX: int, animY: int)

  /** A filled rectangle drawn on the shadow layer with `drawRect`. */
  datatype FillRect = FillRect(x: int, y: int, w: int, h: int)

  /** The part of a tile layer that painting changes: the record buffer and the animation flag. */
  datatype LayerState = LayerState(points: seq<int>, hasAnim: bool)

  /** The eight numbers of one record, in `pointsBuf` order. */
  function Record(r: Rect): (s: seq<int>)
    ensures |s| == 8
  {
    [r.u, r.v, r.x, r.y, r.w, r.h, r.animX, r.animY]
  }

  /**
   * Whether `addRect` re-expresses the call as a row of `w / h` records
   * ("horizontal line on squares"): the sizes differ and `h` divides `w`
   * (JavaScript's `w % h` is zero exactly then, and is NaN for `h == 0`).
   */
  predicate Splits(r: Rect)
  {
    r.w != r.h && r.h != 0 && r.w % r.h == 0
  }

  /** The first `k` records of a split call. */
  function SplitPoints(r: Rect, k: nat): seq<int>
  {
    if k == 0 then []
    else SplitPoints(r, k - 1) + Record(Shifted(r, k - 1))
  }

  /** How many records one call appends: a split runs its loop `w / h` times, which is never when that is negative. */
  function RecordCount(r: Rect): nat
  {
    if Splits(r) then (if r.w / r.h > 0 then r.w / r.h else 0) else 1
  }

  /** The numbers one `addRect` call appends to `pointsBuf`. */
  function RectPoints(r: Rect): seq<int>
  {
    if Splits(r) then SplitPoints(r, RecordCount(r)) else Record(r)
  }

  predicate Animated(r: Rect)
  {
    r.animX > 0 || r.animY > 0
  }

  /** The effect of one `addRect` call on a layer. */
  function AppendRect(s: LayerState, r: Rect): LayerState
  {
    LayerState(s.points + RectPoints(r), s.hasAnim || Animated(r))
  }

  /** The effect of a sequence of `addRect` calls, in order. */
  function AppendAll(s: LayerState, rs: seq<Rect>): LayerState
    decreases |rs|
  {
    if rs == [] then s else AppendAll(AppendRect(s, rs[0]), rs[1..])
  }

  /**
   * The effect of `layers[setNumber]` receiving the calls `rs`: a layer that
   * is absent (`layers[setNumber]` undefined) receives nothing.
   */
  function AppendAt(v: seq<LayerState>, setNumber: int, rs: seq<Rect>): (v': seq<LayerState>)
    ensures |v'| == |v|
  {
    if 0 <= setNumber < |v| then v[setNumber := AppendAll(v[setNumber], rs)] else v
  }

  /** Record `j` of a split call: the call's record shifted by `j * h` in u and x. */
  function Shifted(r: Rect, j: int): Rect
  {
    r.(u := r.u + j * r.h, x := r.x + j * r.h)
  }

  lemma {:induction false} SplitPointsIndex(r: Rect, k: nat, j: nat, t: nat)
    requires j < k && t < 8
    ensures 8 * j + t < |SplitPoints(r, k)|
    ensures SplitPoints(r, k)[8 * j + t] == Record(Shifted(r, j))[t]
  {
    SplitPointsLength(r, k - 1);
    var a, b := SplitPoints(r, k - 1), Record(Shifted(r, k - 1));
    assert SplitPoints(r, k) == a + b;
    if j < k - 1 {
      SplitPointsIndex(r, k - 1, j, t);
    }
  }

  lemma SplitPointsAt(r: Rect, k: nat, j: nat)
    requires j < k
    ensures |SplitPoints(r, k)| == 8 * k
    ensures SplitPoints(r, k)[8 * j .. 8 * j + 8] == Record(Shifted(r, j))
  {
    SplitPointsLength(r, k);
    var s := SplitPoints(r, k);
    forall t | 0 <= t < 8
      ensures s[8 * j + t] == Record(Shifted(r, j))[t]
    {
      SplitPointsIndex(r, k, j, t);
    }
    assert s[8 * j .. 8 * j + 8] == Record(Shifted(r, j));
  }

  lemma {:induction false} SplitPointsLength(r: Rect, k: nat)
    ensures |SplitPoints(r, k)| == 8 * k
  {
    if k > 0 {
      SplitPointsLength(r, k - 1);
    }
  }

  lemma RectPointsLength(r: Rect)
    ensures |RectPoints(r)| == 8 * RecordCount(r)
  {
    if Splits(r) {
      SplitPointsLength(r, RecordCount(r));
    }
  }

  /**
   * One call appends `RecordCount(r)` records; record `j` is the call's record
   * shifted by `j * h` in u and x, and every record keeps the call's full
   * width `w` in its width field, split or not.
   */
  lemma RectPointsRecords(r: Rect)
    ensures |RectPoints(r)| == 8 * RecordCount(r)
    ensures forall j :: 0 <= j < RecordCount(r) ==>
      RectPoints(r)[8 * j .. 8 * j + 8] == [r.u + j * r.h, r.v, r.x + j * r.h, r.y, r.w, r.h, r.animX, r.animY]
  {
    if Splits(r) {
      SplitPointsLength(r, RecordCount(r));
      forall j | 0 <= j < RecordCount(r)
        ensures RectPoints(r)[8 * j .. 8 * j + 8] == [r.u + j * r.h, r.v, r.x + j * r.h, r.y, r.w, r.h, r.animX, r.animY]
      {
        SplitPointsAt(r, RecordCount(r), j);
      }
    }
  }

  /**
   * With positive sizes, a split call places at least two records, `h` apart,
   * whose left edges run across the destination: the row of `h`-wide squares
   * it stands for ends exactly at `x + w`.
   */
  lemma SplitTiles(r: Rect)
    requires Splits(r) && r.w > 0 && r.h > 0
    ensures RecordCount(r) >= 2
    ensures RecordCount(r) * r.h == r.w
  {
    var k := r.w / r.h;
    assert r.w == k * r.h;
  }

  /**
   * A call places a record unless it splits with a ratio `w / h` of zero or
   * less, whose loop never runs: `addRect` with width -8 (or 0) and height 4
   * appends nothing.
   */
  lemma PlacesRecord(r: Rect)
    ensures RecordCount(r) == 0 <==> Splits(r) && r.w / r.h <= 0
    ensures RecordCount(r) == 0 <==> RectPoints(r) == []
    ensures RecordCount(Rect(0, 0, 0, 0, -8, 4, 0, 0)) == 0
  {
    RectPointsLength(r);
    assert -8 / 4 == -2;
  }

  lemma {:induction false} AppendAllConcat(s: LayerState, a: seq<Rect>, b: seq<Rect>)
    ensures AppendAll(s, a + b) == AppendAll(AppendAll(s, a), b)
    decreases |a|
  {
    if a != [] {
      assert (a + b)[0] == a[0];
      assert (a + b)[1..] == a[1..] + b;
      AppendAllConcat(AppendRect(s, a[0]), a[1..], b);
    } else {
      assert a + b == b;
    }
  }

  /**
   * A sequence of calls only appends: the old buffer is a prefix of the new
   * one, whole records are kept whole, and the flag ends up set exactly when
   * it was set before or some call carried an animation flag.
   */
  lemma {:induction false} AppendAllAppends(s: LayerState, rs: seq<Rect>)
    ensures s.points <= AppendAll(s, rs).points
    ensures |AppendAll(s, rs).points| % 8 == |s.points| % 8
    ensures AppendAll(s, rs).hasAnim <==> s.hasAnim || exists i :: 0 <= i < |rs| && Animated(rs[i])
    decreases |rs|
  {
    if rs != [] {
      var s1 := AppendRect(s, rs[0]);
      RectPointsLength(rs[0]);
      var k := RecordCount(rs[0]);
      assert |s1.points| == |s.points| + 8 * k;
      DivModUnique(|s.points| + 8 * k, 8, |s.points| / 8 + k, |s.points| % 8);
      AppendAllAppends(s1, rs[1..]);
      if AppendAll(s, rs).hasAnim && !s.hasAnim && !Animated(rs[0]) {
        var i :| 0 <= i < |rs[1..]| && Animated(rs[1..][i]);
        assert Animated(rs[i + 1]);
      }
      if exists i :: 0 <= i < |rs| && Animated(rs[i]) {
        var i :| 0 <= i < |rs| && Animated(rs[i]);
        if i > 0 {
          assert Animated(rs[1..][i - 1]);
        }
      }
    }
  }
}
