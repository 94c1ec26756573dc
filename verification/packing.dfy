/**
 * Vertex packing for a tile layer's GPU upload: the vertex count, the
 * doubling growth of the backing store, the float layout of each record in
 * point-sprite (square) and triangle (rect) mode, and the upload-range rule.
 * Byte counts follow the shader strides; the backing array holds one number
 * per 4-byte float.
 */
module Packing {
  import opened JsNum

  /** Vertices drawn per record: one point sprite, or two triangles. */
  function VertPerQuad(useSquare: bool): nat
  {
    if useSquare then 1 else 6
  }

  /** Bytes per vertex: 7 floats (square shader) or 6 floats (rect shader). */
  function Stride(useSquare: bool): nat
  {
    if useSquare then 28 else 24
  }

  /** Floats each record occupies in the backing array. */
  function FloatsPerRecord(useSquare: bool): (n: nat)
    ensures 4 * n == Stride(useSquare) * VertPerQuad(useSquare)
  {
    if useSquare then 7 else 36
  }

  /** The vertex count for a record buffer of `len` numbers (eight per record). */
  function Vertices(useSquare: bool, len: nat): nat
  {
    len / 8 * VertPerQuad(useSquare)
  }

  /** One vertex of the rect shader: corner (cx, cy) of record `i`, as position, texture position and animation flags. */
  function Vertex(p: seq<int>, i: nat, cx: int, cy: int): (s: seq<int>)
    requires 8 * i + 8 <= |p|
    ensures |s| == 6
  {
    var u, v, x, y, w, h := p[8 * i], p[8 * i + 1], p[8 * i + 2], p[8 * i + 3], p[8 * i + 4], p[8 * i + 5];
    [x + cx * w, y + cy * h, u + cx * w, v + cy * h, p[8 * i + 6], p[8 * i + 7]]
  }

  /** The floats record `i` is packed into. */
  function Block(useSquare: bool, p: seq<int>, i: nat): (s: seq<int>)
    requires 8 * i + 8 <= |p|
    ensures |s| == FloatsPerRecord(useSquare)
  {
    if useSquare then
      [p[8 * i + 2], p[8 * i + 3], p[8 * i], p[8 * i + 1], p[8 * i + 4], p[8 * i + 6], p[8 * i + 7]]
    else
      Vertex(p, i, 0, 0) + Vertex(p, i, 1, 0) + Vertex(p, i, 1, 1)
      + Vertex(p, i, 0, 0) + Vertex(p, i, 1, 1) + Vertex(p, i, 0, 1)
  }

  /** The floats of the first `n` records, in order. */
  function Pack(useSquare: bool, p: seq<int>, n: nat): seq<int>
    requires 8 * n <= |p|
  {
    if n == 0 then [] else Pack(useSquare, p, n - 1) + Block(useSquare, p, n - 1)
  }

  lemma {:induction false} PackLength(useSquare: bool, p: seq<int>, n: nat)
    requires 8 * n <= |p|
    ensures |Pack(useSquare, p, n)| == n * FloatsPerRecord(useSquare)
  {
    if n > 0 {
      PackLength(useSquare, p, n - 1);
      var f := FloatsPerRecord(useSquare);
      assert |Block(useSquare, p, n - 1)| == f;
      MulSucc(n - 1, f);
    }
  }

  lemma {:induction false} PackIndex(useSquare: bool, p: seq<int>, n: nat, i: nat, k: nat)
    requires 8 * n <= |p| && i < n && k < FloatsPerRecord(useSquare)
    ensures i * FloatsPerRecord(useSquare) + k < |Pack(useSquare, p, n)|
    ensures Pack(useSquare, p, n)[i * FloatsPerRecord(useSquare) + k] == Block(useSquare, p, i)[k]
  {
    var f := FloatsPerRecord(useSquare);
    PackLength(useSquare, p, n - 1);
    var a, b := Pack(useSquare, p, n - 1), Block(useSquare, p, n - 1);
    assert Pack(useSquare, p, n) == a + b;
    if i < n - 1 {
      PackIndex(useSquare, p, n - 1, i, k);
    } else {
      assert i * f == |a|;
    }
  }

  lemma PackBlock(useSquare: bool, p: seq<int>, n: nat, i: nat)
    requires 8 * n <= |p| && i < n
    ensures |Pack(useSquare, p, n)| == n * FloatsPerRecord(useSquare)
    ensures Pack(useSquare, p, n)[i * FloatsPerRecord(useSquare) .. (i + 1) * FloatsPerRecord(useSquare)] == Block(useSquare, p, i)
  {
    var f := FloatsPerRecord(useSquare);
    PackLength(useSquare, p, n);
    MulMono(i + 1, n, f);
    MulSucc(i, f);
    var s := Pack(useSquare, p, n);
    forall k | 0 <= k < f
      ensures s[i * f + k] == Block(useSquare, p, i)[k]
    {
      PackIndex(useSquare, p, n, i, k);
    }
    SliceFromIndex(s, i * f, Block(useSquare, p, i));
  }

  lemma SliceFromIndex(s: seq<int>, lo: nat, b: seq<int>)
    requires lo + |b| <= |s|
    requires forall k :: 0 <= k < |b| ==> s[lo + k] == b[k]
    ensures s[lo .. lo + |b|] == b
  {
  }

  /** Record `i` occupies floats `i * F` to `(i + 1) * F` of the packing, F being the floats per record. */
  lemma PackAt(useSquare: bool, p: seq<int>, n: nat)
    requires 8 * n <= |p|
    ensures |Pack(useSquare, p, n)| == n * FloatsPerRecord(useSquare)
    ensures forall i :: 0 <= i < n ==>
      Pack(useSquare, p, n)[i * FloatsPerRecord(useSquare) .. (i + 1) * FloatsPerRecord(useSquare)] == Block(useSquare, p, i)
  {
    PackLength(useSquare, p, n);
    forall i | 0 <= i < n
      ensures Pack(useSquare, p, n)[i * FloatsPerRecord(useSquare) .. (i + 1) * FloatsPerRecord(useSquare)] == Block(useSquare, p, i)
    {
      PackBlock(useSquare, p, n, i);
    }
  }

  lemma MulSucc(a: nat, c: nat)
    ensures a * c + c == (a + 1) * c
  {
  }

  lemma MulMono(a: nat, b: nat, c: nat)
    requires a <= b
    ensures a * c <= b * c
  {
  }

  /** The packed floats fill exactly the bytes the vertex count asks for. */
  lemma PackSize(useSquare: bool, p: seq<int>)
    requires |p| % 8 == 0
    ensures 4 * |Pack(useSquare, p, |p| / 8)| == Stride(useSquare) * Vertices(useSquare, |p|)
  {
    var n := |p| / 8;
    PackLength(useSquare, p, n);
    if useSquare {
      assert 4 * (n * 7) == 28 * (n * 1);
    } else {
      assert 4 * (n * 36) == 24 * (n * 6);
    }
  }

  /**
   * Rect mode draws each record as the triangles top-left, top-right,
   * bottom-right and top-left, bottom-right, bottom-left: vertex `k` sits at
   * corner (cx[k], cy[k]) of the record's destination and texture rectangles.
   */
  lemma RectCorners(p: seq<int>, i: nat)
    requires 8 * i + 8 <= |p|
    ensures var b := Block(false, p, i);
      var cx, cy := [0, 1, 1, 0, 1, 0], [0, 0, 1, 0, 1, 1];
      forall k :: 0 <= k < 6 ==> b[6 * k .. 6 * k + 6] == Vertex(p, i, cx[k], cy[k])
  {
  }

  /** The record as the rect shader's block gives it back: vertex 0 is its corner, vertex 2 the opposite corner. */
  function UnpackRect(b: seq<int>): seq<int>
    requires |b| == 36
  {
    [b[2], b[3], b[0], b[1], b[12] - b[0], b[13] - b[1], b[4], b[5]]
  }

  /** The square shader's block drops the height: a record comes back with height equal to its width. */
  function UnpackSquare(b: seq<int>): seq<int>
    requires |b| == 7
  {
    [b[2], b[3], b[0], b[1], b[4], b[4], b[5], b[6]]
  }

  /** Rect mode loses nothing: every record is recovered from its block. */
  lemma RectRoundTrip(p: seq<int>, i: nat)
    requires 8 * i + 8 <= |p|
    ensures UnpackRect(Block(false, p, i)) == p[8 * i .. 8 * i + 8]
  {
  }

  /** Square mode recovers exactly the records whose width equals their height. */
  lemma SquareRoundTrip(p: seq<int>, i: nat)
    requires 8 * i + 8 <= |p|
    ensures UnpackSquare(Block(true, p, i)) == p[8 * i .. 8 * i + 8] <==> p[8 * i + 4] == p[8 * i + 5]
  {
    if UnpackSquare(Block(true, p, i)) == p[8 * i .. 8 * i + 8] {
      assert UnpackSquare(Block(true, p, i))[5] == p[8 * i .. 8 * i + 8][5];
    }
  }

  /**
   * The growth loop: doubling from one stride until `vs` bytes fit. The
   * capacity is the least `stride * 2^k` that is at least `vs`.
   */
  method GrowCapacity(stride: nat, vs: nat) returns (bk: nat)
    requires stride > 0
    ensures bk >= vs && bk >= stride
    ensures exists k: nat :: bk == stride * Pow2(k)
    ensures bk == stride || bk < 2 * vs
    ensures stride % 4 == 0 ==> bk % 4 == 0
  {
    bk := stride;
    ghost var k: nat := 0;
    while bk < vs
      invariant bk == stride * Pow2(k) && bk >= stride
      invariant bk == stride || bk < 2 * vs
      invariant stride % 4 == 0 ==> bk % 4 == 0
      decreases vs - bk
    {
      bk := bk * 2;
      k := k + 1;
    }
  }

  /** What is uploaded after repacking: the whole array, or a prefix of that many floats. */
  datatype Upload = Whole | Prefix(floats: nat)

  /** The upload rule: the whole array when `vs` exceeds half its float length, else its first `vs` floats. */
  function UploadRange(vs: nat, floatLength: nat): Upload
  {
    if 2 * vs > floatLength then Whole else Prefix(vs)
  }

  /**
   * The rule compares a byte count with a float count. A prefix upload sends
   * four times the floats that were packed, and still stays within the array;
   * every packed float is always uploaded.
   */
  lemma UploadUnits(useSquare: bool, p: seq<int>, floatLength: nat)
    requires |p| % 8 == 0
    ensures var vs := Stride(useSquare) * Vertices(useSquare, |p|);
      var packed := |Pack(useSquare, p, |p| / 8)|;
      && (UploadRange(vs, floatLength).Prefix? <==> 8 * packed <= floatLength)
      && (UploadRange(vs, floatLength).Prefix? ==>
            UploadRange(vs, floatLength).floats == 4 * packed <= floatLength)
  {
    PackSize(useSquare, p);
  }

  /** Right after growing, the array is less than eight times the packed size, so the whole array is uploaded. */
  lemma UploadAfterGrowth(stride: nat, vs: nat, bk: nat)
    requires stride > 0 && vs >= stride
    requires bk >= vs && (bk == stride || bk < 2 * vs)
    ensures UploadRange(vs, bk / 4) == Whole
  {
  }

  lemma PackNext(useSquare: bool, p: seq<int>, i: nat, s: seq<int>, sz: nat)
    requires 8 * i + 8 <= |p| && sz + FloatsPerRecord(useSquare) == |s|
    requires s[..sz] == Pack(useSquare, p, i) && s[sz..] == Block(useSquare, p, i)
    ensures s == Pack(useSquare, p, i + 1)
  {
    assert s == s[..sz] + s[sz..];
  }

  /** Writes `b` into `arr` from position `at`, one float at a time. */
  method WriteBlock(arr: array<int>, at: nat, b: seq<int>)
    requires at + |b| <= arr.Length
    modifies arr
    ensures arr[..at] == old(arr[..at])
    ensures arr[at .. at + |b|] == b
    ensures arr[at + |b| ..] == old(arr[at + |b| ..])
  {
    var j := 0;
    while j < |b|
      invariant 0 <= j <= |b|
      invariant arr[..at] == old(arr[..at])
      invariant arr[at .. at + j] == b[..j]
      invariant arr[at + |b| ..] == old(arr[at + |b| ..])
    {
      arr[at + j] := b[j];
      j := j + 1;
    }
  }

  /** The packing loop: the records of `p` are written from the start of `arr`; the rest of `arr` is untouched. */
  method FillVertices(arr: array<int>, useSquare: bool, p: seq<int>)
    requires |p| % 8 == 0 && |p| / 8 * FloatsPerRecord(useSquare) <= arr.Length
    modifies arr
    ensures arr[..|p| / 8 * FloatsPerRecord(useSquare)] == Pack(useSquare, p, |p| / 8)
    ensures forall k :: |p| / 8 * FloatsPerRecord(useSquare) <= k < arr.Length ==> arr[k] == old(arr[k])
  {
    var f := FloatsPerRecord(useSquare);
    var n := |p| / 8;
    ghost var total := n * f;
    var i, sz := 0, 0;
    while i < n
      invariant 0 <= i <= n && sz == i * f && sz <= total
      invariant arr[..sz] == Pack(useSquare, p, i)
      invariant forall k :: total <= k < arr.Length ==> arr[k] == old(arr[k])
    {
      assert sz + f == (i + 1) * f <= total by {
        MulSucc(i, f);
        MulMono(i + 1, n, f);
      }
      AppendBlock(arr, useSquare, p, i, sz);
      sz := sz + f;
      i := i + 1;
    }
  }

  /** Packs record `i` right after the first `i` records, leaving the rest of the array alone. */
  method AppendBlock(arr: array<int>, useSquare: bool, p: seq<int>, i: nat, sz: nat)
    requires 8 * i + 8 <= |p| && sz + FloatsPerRecord(useSquare) <= arr.Length
    requires arr[..sz] == Pack(useSquare, p, i)
    modifies arr
    ensures arr[..sz + FloatsPerRecord(useSquare)] == Pack(useSquare, p, i + 1)
    ensures forall k :: sz + FloatsPerRecord(useSquare) <= k < arr.Length ==> arr[k] == old(arr[k])
  {
    var f := FloatsPerRecord(useSquare);
    WriteBlock(arr, sz, Block(useSquare, p, i));
    PackNext(useSquare, p, i, arr[..sz + f], sz);
    assert forall k :: sz + f <= k < arr.Length ==> arr[k] == arr[sz + f..][k - (sz + f)];
  }
}
