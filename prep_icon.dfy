/**
 * The icon preparation script: a centred square crop, then a pass that makes light background
 * pixels transparent, then `iterations` passes that clear light pixels on the edge of the
 * transparent area. The pixel array is an `array2` of RGBA pixels updated in place, as the
 * script updates its numpy array.
 *
 * The script compares channel means held in floats (`avg > 200`). The mean of three integer
 * channels exceeds an integer threshold `t` exactly when their sum exceeds `3 * t`, so the model
 * compares sums; `BackgroundIffMeans` relates the two readings.
 */
module IconPrep {

  /** A `uint8` channel value. */
  type Byte = x: int | 0 <= x < 256

  datatype Pixel = Pixel(r: Byte, g: Byte, b: Byte, a: Byte)

  /** An image as rows of pixels. */
  type Image = seq<seq<Pixel>>

  // ---------------------------------------------------------------------------------------
  // crop_to_square
  // ---------------------------------------------------------------------------------------

  /** The box `img.crop` receives: left, top, right, bottom. */
  datatype Box = Box(left: int, top: int, right: int, bottom: int)

  function Min(a: int, b: int): int {
    if a <= b then a else b
  }

  /** The crop box of `crop_to_square` for an image of `width` by `height`. */
  function CropBox(width: nat, height: nat): (b: Box)
    ensures b.right - b.left == b.bottom - b.top == Min(width, height)
    ensures 0 <= b.left && b.right <= width && 0 <= b.top && b.bottom <= height
    ensures var slack := width - b.right - b.left; slack == 0 || slack == 1
    ensures var slack := height - b.bottom - b.top; slack == 0 || slack == 1
  {
    var size := Min(width, height);
    var left := (width - size) / 2;
    var top := (height - size) / 2;
    Box(left, top, left + size, top + size)
  }

  /** The box keeps the whole of the shorter side: one of its margins pairs is zero. */
  lemma CropKeepsShortSide(width: nat, height: nat)
    ensures var b := CropBox(width, height);
      (b.left == 0 && b.right == width) || (b.top == 0 && b.bottom == height)
  {
  }

  // ---------------------------------------------------------------------------------------
  // make_background_transparent
  // ---------------------------------------------------------------------------------------

  /** The sum of the three colour channels: three times the channel mean. */
  function Sum(p: Pixel): nat {
    p.r + p.g + p.b
  }

  function Max3(a: int, b: int, c: int): int {
    if a >= b && a >= c then a else if b >= c then b else c
  }

  function Min3(a: int, b: int, c: int): int {
    if a <= b && a <= c then a else if b <= c then b else c
  }

  /** `max_channel - min_channel` */
  function Spread(p: Pixel): nat {
    Max3(p.r, p.g, p.b) - Min3(p.r, p.g, p.b)
  }

  /**
   * `is_background`: light and unsaturated (mean above 200, spread below 50), or greyish (mean
   * above 170, spread below 35), or very light (mean above 235).
   */
  predicate IsBackground(p: Pixel) {
    || (Sum(p) > 600 && Spread(p) < 50)
    || (Sum(p) > 510 && Spread(p) < 35)
    || Sum(p) > 705
  }

  /** The three tests read as the script writes them, on the real-valued channel mean. */
  predicate BackgroundByMeans(p: Pixel) {
    var mean := (p.r + p.g + p.b) as real / 3.0;
    || (mean > 200.0 && Spread(p) < 50)
    || (mean > 170.0 && Spread(p) < 35)
    || mean > 235.0
  }

  lemma BackgroundIffMeans(p: Pixel)
    ensures IsBackground(p) <==> BackgroundByMeans(p)
  {
    var s := (p.r + p.g + p.b) as real;
    assert s / 3.0 > 200.0 <==> s > 600.0;
    assert s / 3.0 > 170.0 <==> s > 510.0;
    assert s / 3.0 > 235.0 <==> s > 705.0;
  }

  /** Pure white is background; nothing with a channel sum of 510 or less (mean 170) is. */
  lemma BackgroundBounds(p: Pixel)
    ensures p.r == 255 && p.g == 255 && p.b == 255 ==> IsBackground(p)
    ensures Sum(p) <= 510 ==> !IsBackground(p)
  {
  }

  /** `data[is_background, 3] = 0` on one pixel. */
  function Transparent(p: Pixel): (q: Pixel)
    ensures q.r == p.r && q.g == p.g && q.b == p.b
    ensures q.a == (if IsBackground(p) then 0 else p.a)
  {
    if IsBackground(p) then p.(a := 0) else p
  }

  /** `make_background_transparent` on an RGBA array. */
  method MakeBackgroundTransparent(data: array2<Pixel>)
    modifies data
    ensures forall y, x :: 0 <= y < data.Length0 && 0 <= x < data.Length1 ==>
      data[y, x] == Transparent(old(data[y, x]))
  {
    var y := 0;
    while y < data.Length0
      invariant 0 <= y <= data.Length0
      invariant forall i, j :: 0 <= i < y && 0 <= j < data.Length1 ==> data[i, j] == Transparent(old(data[i, j]))
      invariant forall i, j :: y <= i < data.Length0 && 0 <= j < data.Length1 ==> data[i, j] == old(data[i, j])
    {
      var x := 0;
      while x < data.Length1
        invariant 0 <= x <= data.Length1
        invariant forall i, j :: 0 <= i < y && 0 <= j < data.Length1 ==> data[i, j] == Transparent(old(data[i, j]))
        invariant forall j :: 0 <= j < x ==> data[y, j] == Transparent(old(data[y, j]))
        invariant forall i, j :: 0 <= i < data.Length0 && 0 <= j < data.Length1 && (i > y || (i == y && j >= x)) ==>
          data[i, j] == old(data[i, j])
      {
        if IsBackground(data[y, x]) {
          data[y, x] := data[y, x].(a := 0);
        }
        x := x + 1;
      }
      y := y + 1;
    }
  }

  // ---------------------------------------------------------------------------------------
  // cleanup_edges: the specification
  // ---------------------------------------------------------------------------------------

  /** The neighbour offsets `(dy, dx)` in the order of the two nested loops, `(0, 0)` skipped. */
  const Offsets: seq<(int, int)> := [(-1, -1), (-1, 0), (-1, 1), (0, -1), (0, 1), (1, -1), (1, 0), (1, 1)]

  /** The alpha at `(y, x)`, or 0 outside the image, as the zero-filled `shifted_alpha` holds it. */
  function AlphaAt(img: Image, y: int, x: int): Byte {
    if 0 <= y < |img| && 0 <= x < |img[y]| then img[y][x].a else 0
  }

  /** Some of the first `k` shifted alphas at `(y, x)` is 0. */
  predicate AnyClear(img: Image, y: int, x: int, k: nat)
    requires k <= |Offsets|
  {
    k > 0 && (AnyClear(img, y, x, k - 1) || AlphaAt(img, y - Offsets[k - 1].0, x - Offsets[k - 1].1) == 0)
  }

  lemma AnyClearNext(img: Image, y: int, x: int, k: nat)
    requires k < |Offsets|
    ensures AnyClear(img, y, x, k + 1) == (AnyClear(img, y, x, k) || AlphaAt(img, y - Offsets[k].0, x - Offsets[k].1) == 0)
  {
  }

  /** `light_edges` at `(y, x)`: opaque, next to a transparent or missing pixel, and bright. */
  predicate IsLightEdge(img: Image, y: int, x: int)
    requires 0 <= y < |img| && 0 <= x < |img[y]|
  {
    img[y][x].a > 0 && AnyClear(img, y, x, |Offsets|) && Sum(img[y][x]) > 540
  }

  function PassPixel(img: Image, y: int, x: int): Pixel
    requires 0 <= y < |img| && 0 <= x < |img[y]|
  {
    if IsLightEdge(img, y, x) then img[y][x].(a := 0) else img[y][x]
  }

  /** One iteration of `cleanup_edges`: every edge is decided on the alphas the pass starts from. */
  function Pass(img: Image): (r: Image)
    ensures |r| == |img| && forall y :: 0 <= y < |img| ==> |r[y]| == |img[y]|
  {
    seq(|img|, y requires 0 <= y < |img| =>
      seq(|img[y]|, x requires 0 <= x < |img[y]| => PassPixel(img, y, x)))
  }

  /** `iterations` passes, one after the other. */
  function Passes(img: Image, n: nat): Image {
    if n == 0 then img else Pass(Passes(img, n - 1))
  }

  /** The eight neighbours, offsets written out: one of them is outside or transparent. */
  predicate NextToClear(img: Image, y: int, x: int) {
    exists dy, dx :: -1 <= dy <= 1 && -1 <= dx <= 1 && (dy, dx) != (0, 0) && AlphaAt(img, y + dy, x + dx) == 0
  }

  lemma {:induction false} AnyClearSpec(img: Image, y: int, x: int, k: nat)
    requires k <= |Offsets|
    ensures AnyClear(img, y, x, k) <==> exists j :: 0 <= j < k && AlphaAt(img, y - Offsets[j].0, x - Offsets[j].1) == 0
  {
    if k > 0 {
      AnyClearSpec(img, y, x, k - 1);
    }
  }

  /** The offset list reaches exactly the eight neighbours. */
  lemma AllNeighbours(img: Image, y: int, x: int)
    ensures AnyClear(img, y, x, |Offsets|) <==> NextToClear(img, y, x)
  {
    AnyClearSpec(img, y, x, |Offsets|);
    if NextToClear(img, y, x) {
      var dy, dx :| -1 <= dy <= 1 && -1 <= dx <= 1 && (dy, dx) != (0, 0) && AlphaAt(img, y + dy, x + dx) == 0;
      NeighbourIsListed(img, y, x, dy, dx);
    }
    if AnyClear(img, y, x, |Offsets|) {
      var j :| 0 <= j < |Offsets| && AlphaAt(img, y - Offsets[j].0, x - Offsets[j].1) == 0;
      ListedIsNeighbour(img, y, x, j);
    }
  }

  lemma NeighbourIsListed(img: Image, y: int, x: int, dy: int, dx: int)
    requires -1 <= dy <= 1 && -1 <= dx <= 1 && (dy, dx) != (0, 0) && AlphaAt(img, y + dy, x + dx) == 0
    ensures exists j :: 0 <= j < |Offsets| && AlphaAt(img, y - Offsets[j].0, x - Offsets[j].1) == 0
  {
    var j := OffsetOf(dy, dx);
    assert AlphaAt(img, y - Offsets[j].0, x - Offsets[j].1) == 0;
  }

  lemma ListedIsNeighbour(img: Image, y: int, x: int, j: nat)
    requires j < |Offsets| && AlphaAt(img, y - Offsets[j].0, x - Offsets[j].1) == 0
    ensures NextToClear(img, y, x)
  {
    OffsetIsNeighbour(j);
    var dy, dx := -Offsets[j].0, -Offsets[j].1;
    assert AlphaAt(img, y + dy, x + dx) == 0;
  }

  /** The position of a neighbour's reversed offset in `Offsets`. */
  lemma OffsetOf(dy: int, dx: int) returns (j: nat)
    requires -1 <= dy <= 1 && -1 <= dx <= 1 && (dy, dx) != (0, 0)
    ensures j < |Offsets| && Offsets[j] == (-dy, -dx)
  {
    var k := (1 - dy) * 3 + (1 - dx);
    j := if k > 4 then k - 1 else k;
  }

  lemma OffsetIsNeighbour(j: nat)
    requires j < |Offsets|
    ensures -1 <= Offsets[j].0 <= 1 && -1 <= Offsets[j].1 <= 1 && Offsets[j] != (0, 0)
  {
  }

  /**
   * A pass clears a pixel exactly when it is opaque, one of its eight neighbours is transparent
   * or outside the image, and its mean brightness is above 180; the colour never changes.
   */
  lemma PassClears(img: Image, y: int, x: int)
    requires 0 <= y < |img| && 0 <= x < |img[y]|
    ensures var p, q := img[y][x], Pass(img)[y][x];
      && q.r == p.r && q.g == p.g && q.b == p.b
      && (q.a == 0 || q.a == p.a)
      && (q.a != p.a <==> p.a > 0 && NextToClear(img, y, x) && Sum(p) > 540)
  {
    AllNeighbours(img, y, x);
  }

  /**
   * After any number of passes the image keeps its shape and colours, and no alpha has grown:
   * a transparent pixel stays transparent.
   */
  lemma {:induction false} PassesOnlyClear(img: Image, n: nat)
    ensures |Passes(img, n)| == |img|
    ensures forall y :: 0 <= y < |img| ==> |Passes(img, n)[y]| == |img[y]|
    ensures forall y, x :: 0 <= y < |img| && 0 <= x < |img[y]| ==>
      var p, q := img[y][x], Passes(img, n)[y][x];
      q.r == p.r && q.g == p.g && q.b == p.b && q.a <= p.a
  {
    if n > 0 {
      PassesOnlyClear(img, n - 1);
      var prev := Passes(img, n - 1);
      forall y, x | 0 <= y < |img| && 0 <= x < |img[y]|
        ensures var p, q := img[y][x], Passes(img, n)[y][x];
          q.r == p.r && q.g == p.g && q.b == p.b && q.a <= p.a
      {
        PassClears(prev, y, x);
      }
    }
  }

  // ---------------------------------------------------------------------------------------
  // cleanup_edges: the array version
  // ---------------------------------------------------------------------------------------

  /** The rows of a pixel array. */
  ghost function Contents(data: array2<Pixel>): (img: Image)
    reads data
    ensures |img| == data.Length0
    ensures forall y :: 0 <= y < data.Length0 ==> |img[y]| == data.Length1
    ensures forall y, x :: 0 <= y < data.Length0 && 0 <= x < data.Length1 ==> img[y][x] == data[y, x]
  {
    seq(data.Length0, y requires 0 <= y < data.Length0 reads data =>
      seq(data.Length1, x requires 0 <= x < data.Length1 reads data => data[y, x]))
  }

  /** The slice bounds of one shift: source rows and columns, then destination ones. */
  datatype Window = Window(srcY0: int, srcY1: int, srcX0: int, srcX1: int, dstY0: int, dstY1: int, dstX0: int, dstX1: int)

  function Max(a: int, b: int): int {
    if a >= b then a else b
  }

  /** `src_y_start` ... `dst_x_end` for the offset `(dy, dx)`. */
  function ShiftWindow(h: nat, w: nat, dy: int, dx: int): Window {
    Window(Max(0, -dy), h - Max(0, dy), Max(0, -dx), w - Max(0, dx),
           Max(0, dy), h - Max(0, -dy), Max(0, dx), w - Max(0, -dx))
  }

  function Abs(n: int): nat {
    if n < 0 then -n else n
  }

  predicate Within(lo: int, hi: int, i: int) {
    lo <= i < hi
  }

  /**
   * Source and destination windows have the same extent, `h - |dy|` by `w - |dx|`, lie inside the
   * array, and the destination `(y, x)` receives the source `(y - dy, x - dx)`; a destination
   * position is in the window exactly when that source position is in the array.
   */
  lemma WindowSpec(h: nat, w: nat, dy: int, dx: int)
    requires -1 <= dy <= 1 && -1 <= dx <= 1 && h >= 1 && w >= 1
    ensures var v := ShiftWindow(h, w, dy, dx);
      && v.srcY1 - v.srcY0 == v.dstY1 - v.dstY0 == h - Abs(dy)
      && v.srcX1 - v.srcX0 == v.dstX1 - v.dstX0 == w - Abs(dx)
      && 0 <= v.srcY0 && v.srcY1 <= h && 0 <= v.dstY0 && v.dstY1 <= h
      && 0 <= v.srcX0 && v.srcX1 <= w && 0 <= v.dstX0 && v.dstX1 <= w
      && v.srcY0 - v.dstY0 == -dy && v.srcX0 - v.dstX0 == -dx
      && (forall y :: 0 <= y < h ==> (Within(v.dstY0, v.dstY1, y) <==> 0 <= y - dy < h))
      && (forall x :: 0 <= x < w ==> (Within(v.dstX0, v.dstX1, x) <==> 0 <= x - dx < w))
  {
  }

  /** `shifted_alpha` for the offset `(dy, dx)`: zeros, then the window copied from `alpha`. */
  method Shift(data: array2<Pixel>, dy: int, dx: int) returns (s: array2<Byte>)
    requires -1 <= dy <= 1 && -1 <= dx <= 1
    ensures fresh(s) && s.Length0 == data.Length0 && s.Length1 == data.Length1
    ensures forall y, x :: 0 <= y < s.Length0 && 0 <= x < s.Length1 ==>
      s[y, x] == AlphaAt(Contents(data), y - dy, x - dx)
  {
    var h, w := data.Length0, data.Length1;
    s := new Byte[h, w]((y, x) => 0);
    if h == 0 || w == 0 {
      return;
    }
    var v := ShiftWindow(h, w, dy, dx);
    WindowSpec(h, w, dy, dx);
    var y := v.dstY0;
    while y < v.dstY1
      invariant v.dstY0 <= y <= v.dstY1
      invariant forall i, j :: 0 <= i < h && 0 <= j < w ==>
        s[i, j] == (if v.dstY0 <= i < y && v.dstX0 <= j < v.dstX1 then data[i - dy, j - dx].a else 0)
    {
      var x := v.dstX0;
      while x < v.dstX1
        invariant v.dstX0 <= x <= v.dstX1
        invariant forall i, j :: 0 <= i < h && 0 <= j < w ==>
          s[i, j] == (if (v.dstY0 <= i < y && v.dstX0 <= j < v.dstX1) || (i == y && v.dstX0 <= j < x)
                      then data[i - dy, j - dx].a else 0)
      {
        s[y, x] := data[v.srcY0 + (y - v.dstY0), v.srcX0 + (x - v.dstX0)].a;
        x := x + 1;
      }
      y := y + 1;
    }
  }

  /** `edge_mask = edge_mask | (opaque & has_transparent_neighbor)` */
  method MarkEdges(edge: array2<bool>, data: array2<Pixel>, shifted: array2<Byte>)
    requires edge.Length0 == shifted.Length0 == data.Length0
    requires edge.Length1 == shifted.Length1 == data.Length1
    modifies edge
    ensures forall y, x :: 0 <= y < edge.Length0 && 0 <= x < edge.Length1 ==>
      edge[y, x] == (old(edge[y, x]) || (data[y, x].a > 0 && shifted[y, x] == 0))
  {
    var y := 0;
    while y < edge.Length0
      invariant 0 <= y <= edge.Length0
      invariant forall i, j :: 0 <= i < edge.Length0 && 0 <= j < edge.Length1 ==>
        edge[i, j] == if i < y then old(edge[i, j]) || (data[i, j].a > 0 && shifted[i, j] == 0) else old(edge[i, j])
    {
      var x := 0;
      while x < edge.Length1
        invariant 0 <= x <= edge.Length1
        invariant forall i, j :: 0 <= i < edge.Length0 && 0 <= j < edge.Length1 ==>
          edge[i, j] == if i < y || (i == y && j < x) then old(edge[i, j]) || (data[i, j].a > 0 && shifted[i, j] == 0)
                        else old(edge[i, j])
      {
        edge[y, x] := edge[y, x] || (data[y, x].a > 0 && shifted[y, x] == 0);
        x := x + 1;
      }
      y := y + 1;
    }
  }

  /** `light_edges = edge_mask & (avg_brightness > 180)`, then `data[light_edges, 3] = 0`. */
  method ClearLightEdges(data: array2<Pixel>, edge: array2<bool>)
    requires edge.Length0 == data.Length0 && edge.Length1 == data.Length1
    modifies data
    ensures forall y, x :: 0 <= y < data.Length0 && 0 <= x < data.Length1 ==>
      data[y, x] == if edge[y, x] && Sum(old(data[y, x])) > 540 then old(data[y, x]).(a := 0) else old(data[y, x])
  {
    var y := 0;
    while y < data.Length0
      invariant 0 <= y <= data.Length0
      invariant forall i, j :: 0 <= i < data.Length0 && 0 <= j < data.Length1 ==>
        data[i, j] == if i < y && edge[i, j] && Sum(old(data[i, j])) > 540 then old(data[i, j]).(a := 0) else old(data[i, j])
    {
      var x := 0;
      while x < data.Length1
        invariant 0 <= x <= data.Length1
        invariant forall i, j :: 0 <= i < data.Length0 && 0 <= j < data.Length1 ==>
          data[i, j] == if (i < y || (i == y && j < x)) && edge[i, j] && Sum(old(data[i, j])) > 540
                        then old(data[i, j]).(a := 0) else old(data[i, j])
      {
        if edge[y, x] && Sum(data[y, x]) > 540 {
          data[y, x] := data[y, x].(a := 0);
        }
        x := x + 1;
      }
      y := y + 1;
    }
  }

  /** One `(dy, dx)` round of the neighbour loop: shift the alphas, then mark the edges. */
  method MarkOffset(edge: array2<bool>, data: array2<Pixel>, dy: int, dx: int)
    requires -1 <= dy <= 1 && -1 <= dx <= 1
    requires edge.Length0 == data.Length0 && edge.Length1 == data.Length1
    modifies edge
    ensures forall y, x :: 0 <= y < edge.Length0 && 0 <= x < edge.Length1 ==>
      edge[y, x] == (old(edge[y, x]) || (data[y, x].a > 0 && AlphaAt(Contents(data), y - dy, x - dx) == 0))
  {
    var shifted := Shift(data, dy, dx);
    MarkEdges(edge, data, shifted);
  }

  /**
   * Round `k` of the neighbour loop: the edges found so far, for the first `k` offsets, grow to
   * those for the first `k + 1`.
   */
  method MarkRound(edge: array2<bool>, data: array2<Pixel>, k: nat)
    requires k < |Offsets|
    requires edge.Length0 == data.Length0 && edge.Length1 == data.Length1
    requires forall y, x :: 0 <= y < data.Length0 && 0 <= x < data.Length1 ==>
      edge[y, x] == (data[y, x].a > 0 && AnyClear(Contents(data), y, x, k))
    modifies edge
    ensures forall y, x :: 0 <= y < data.Length0 && 0 <= x < data.Length1 ==>
      edge[y, x] == (data[y, x].a > 0 && AnyClear(Contents(data), y, x, k + 1))
  {
    ghost var img: Image := Contents(data);
    var (dy, dx) := Offsets[k];
    MarkOffset(edge, data, dy, dx);
    assert Contents(data) == img;
    forall y, x | 0 <= y < data.Length0 && 0 <= x < data.Length1
      ensures edge[y, x] == (data[y, x].a > 0 && AnyClear(img, y, x, k + 1))
    {
      AnyClearNext(img, y, x, k);
    }
  }

  /** `edge_mask` after the neighbour loop, computed from the alphas the pass starts from. */
  method FindEdges(data: array2<Pixel>) returns (edge: array2<bool>)
    ensures fresh(edge) && edge.Length0 == data.Length0 && edge.Length1 == data.Length1
    ensures forall y, x :: 0 <= y < data.Length0 && 0 <= x < data.Length1 ==>
      edge[y, x] == (data[y, x].a > 0 && AnyClear(Contents(data), y, x, |Offsets|))
  {
    edge := new bool[data.Length0, data.Length1]((y, x) => false);
    var k := 0;
    while k < |Offsets|
      invariant 0 <= k <= |Offsets|
      invariant fresh(edge) && edge.Length0 == data.Length0 && edge.Length1 == data.Length1
      invariant forall y, x :: 0 <= y < data.Length0 && 0 <= x < data.Length1 ==>
        edge[y, x] == (data[y, x].a > 0 && AnyClear(Contents(data), y, x, k))
    {
      MarkRound(edge, data, k);
      k := k + 1;
    }
  }

  /** One iteration of the `cleanup_edges` loop. */
  method CleanupPass(data: array2<Pixel>)
    modifies data
    ensures Contents(data) == Pass(old(Contents(data)))
  {
    ghost var img: Image := Contents(data);
    var edge := FindEdges(data);
    ClearLightEdges(data, edge);
    forall y, x | 0 <= y < data.Length0 && 0 <= x < data.Length1 ensures data[y, x] == PassPixel(img, y, x) {
      assert img[y][x] == old(data[y, x]);
    }
    SameContents(data, Pass(img));
  }

  /** An array holds an image when every pixel agrees. */
  lemma SameContents(data: array2<Pixel>, img: Image)
    requires |img| == data.Length0 && forall y :: 0 <= y < |img| ==> |img[y]| == data.Length1
    requires forall y, x :: 0 <= y < data.Length0 && 0 <= x < data.Length1 ==> data[y, x] == img[y][x]
    ensures Contents(data) == img
  {
    var c := Contents(data);
    forall y | 0 <= y < |img| ensures c[y] == img[y] {
    }
  }

  /** `cleanup_edges(img, iterations)` */
  method CleanupEdges(data: array2<Pixel>, iterations: nat)
    modifies data
    ensures Contents(data) == Passes(old(Contents(data)), iterations)
  {
    ghost var img: Image := Contents(data);
    var i := 0;
    while i < iterations
      invariant 0 <= i <= iterations
      invariant Contents(data) == Passes(img, i)
    {
      CleanupPass(data);
      i := i + 1;
    }
  }
}
