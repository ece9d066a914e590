/** The numpy operations the image code relies on, over nested sequences: an
    image is a sequence of rows, a row a sequence of pixels, and a pixel is
    whatever the image holds (a grey level for a 2-D array, a vector of band
    values for a 3-D cube). */
module NdArray {
  import opened Wrappers

  function Min(a: int, b: int): int {
    if a <= b then a else b
  }

  // ---------------------------------------------------------------------------
  // Python slicing with step 1

  /** How Python normalises one bound of a slice against a length `n`. */
  function SliceBound(i: int, n: nat): (r: nat)
    ensures r <= n
    ensures 0 <= i <= n ==> r == i
  {
    if i < 0 then (if i + n < 0 then 0 else i + n) else if i > n then n else i
  }

  /** Python's `s[lo:hi]`: never fails, whatever the bounds. */
  function PySlice<E>(s: seq<E>, lo: int, hi: int): (r: seq<E>)
    ensures |r| <= |s|
    ensures 0 <= lo <= hi <= |s| ==> r == s[lo..hi]
  {
    var a, b := SliceBound(lo, |s|), SliceBound(hi, |s|);
    if a <= b then s[a..b] else []
  }

  /** `int(np.ceil(d / 2))`. */
  function CeilHalf(d: int): (r: int)
    ensures d <= 2 * r <= d + 1
  {
    (d + 1) / 2
  }

  /** `int(np.floor(d / 2))`. */
  function FloorHalf(d: int): (r: int)
    ensures d - 1 <= 2 * r <= d
  {
    d / 2
  }

  // ---------------------------------------------------------------------------
  // Shapes

  /** `shape[0]`. */
  function Height<P>(img: seq<seq<P>>): nat {
    |img|
  }

  /** `shape[1]`; a nested sequence with no rows records no width. */
  function Width<P>(img: seq<seq<P>>): nat {
    if |img| == 0 then 0 else |img[0]|
  }

  /** Every row has the same length, as in a numpy array. */
  ghost predicate Rectangular<P>(img: seq<seq<P>>) {
    forall i :: 0 <= i < |img| ==> |img[i]| == Width(img)
  }

  /** `shape[2]` of a cube. */
  function Bands<T>(cube: seq<seq<seq<T>>>): nat {
    if |cube| == 0 || |cube[0]| == 0 then 0 else |cube[0][0]|
  }

  /** A well-formed H×W×B array. */
  ghost predicate IsCube<T>(cube: seq<seq<seq<T>>>) {
    && Rectangular(cube)
    && forall i, j :: 0 <= i < |cube| && 0 <= j < |cube[i]| ==> |cube[i][j]| == Bands(cube)
  }

  // ---------------------------------------------------------------------------
  // Slicing the first two axes, and the centre crop

  /** numpy's `img[top:bottom, left:right]` (and `img[top:bottom, left:right, :]`). */
  function Slice2<P>(img: seq<seq<P>>, top: int, bottom: int, left: int, right: int): (r: seq<seq<P>>)
    ensures |r| == |PySlice(img, top, bottom)|
  {
    var rows := PySlice(img, top, bottom);
    seq(|rows|, i requires 0 <= i < |rows| => PySlice(rows[i], left, right))
  }

  /** A window that lies inside the array is an exact sub-array. */
  lemma Slice2Window<P>(img: seq<seq<P>>, top: int, bottom: int, left: int, right: int)
    requires 0 <= top <= bottom <= |img|
    requires 0 <= left <= right
    requires forall i :: 0 <= i < |img| ==> right <= |img[i]|
    ensures var r := Slice2(img, top, bottom, left, right);
      |r| == bottom - top
    ensures var r := Slice2(img, top, bottom, left, right);
      forall i :: 0 <= i < |r| ==> |r[i]| == right - left
    ensures var r := Slice2(img, top, bottom, left, right);
      forall i, j :: 0 <= i < |r| && 0 <= j < right - left ==> r[i][j] == img[top + i][left + j]
  {
    var rows := PySlice(img, top, bottom);
    assert rows == img[top..bottom];
    var r := Slice2(img, top, bottom, left, right);
    forall i | 0 <= i < |r|
      ensures |r[i]| == right - left && forall j :: 0 <= j < right - left ==> r[i][j] == img[top + i][left + j]
    {
      assert rows[i] == img[top + i];
      assert r[i] == PySlice(rows[i], left, right) == rows[i][left..right];
    }
  }

  /** The crop window of center_crop_hsi: rows top..bottom, columns left..right. */
  datatype Box = Box(top: int, bottom: int, left: int, right: int)

  /** The window center_crop_hsi computes for an image of the given shape; a
      missing target is `min(width, height)`. */
  function CenterBox(height: nat, width: nat, targetHeight: Option<int>, targetWidth: Option<int>): Box {
    var tw := targetWidth.GetOr(Min(width, height));
    var th := targetHeight.GetOr(Min(width, height));
    Box(CeilHalf(height - th), height - FloorHalf(height - th),
        CeilHalf(width - tw), width - FloorHalf(width - tw))
  }

  /** The cropping of center_crop_hsi on the first two axes, for any pixel type. */
  function CenterCrop<P>(img: seq<seq<P>>, targetHeight: Option<int>, targetWidth: Option<int>): seq<seq<P>> {
    var b := CenterBox(Height(img), Width(img), targetHeight, targetWidth);
    Slice2(img, b.top, b.bottom, b.left, b.right)
  }

  /** The window is centred: when a target fits its dimension, the window has
      exactly the target's extent, and of the `d` pixels removed, `ceil(d/2)`
      go on the top/left side and `floor(d/2)` on the bottom/right side, so an
      odd difference loses its extra pixel on the top/left. */
  lemma CenterBoxCentred(height: nat, width: nat, th: int, tw: int)
    requires 0 <= th <= height && 0 <= tw <= width
    ensures var b := CenterBox(height, width, Some(th), Some(tw));
      && 0 <= b.top <= b.bottom <= height && b.bottom - b.top == th
      && 0 <= b.left <= b.right <= width && b.right - b.left == tw
      && height - b.bottom <= b.top <= height - b.bottom + 1
      && width - b.right <= b.left <= width - b.right + 1
      && (b.top == height - b.bottom <==> (height - th) % 2 == 0)
      && (b.left == width - b.right <==> (width - tw) % 2 == 0)
  {
    var d, e := height - th, width - tw;
    assert CeilHalf(d) + FloorHalf(d) == d;
    assert CeilHalf(e) + FloorHalf(e) == e;
  }

  /** When both targets fit, the crop has exactly `targetHeight` rows of
      `targetWidth` pixels each, and pixel (i, j) of the crop is pixel
      (top + i, left + j) of the source, pixel kept whole (all bands of a cube). */
  lemma CenterCropShape<P>(img: seq<seq<P>>, th: int, tw: int)
    requires Rectangular(img)
    requires 0 <= th <= Height(img) && 0 <= tw <= Width(img)
    ensures var r := CenterCrop(img, Some(th), Some(tw));
      var b := CenterBox(Height(img), Width(img), Some(th), Some(tw));
      && |r| == th
      && (forall i :: 0 <= i < th ==> |r[i]| == tw)
      && (forall i, j :: 0 <= i < th && 0 <= j < tw ==> r[i][j] == img[b.top + i][b.left + j])
  {
    var b := CenterBox(Height(img), Width(img), Some(th), Some(tw));
    CenterBoxCentred(Height(img), Width(img), th, tw);
    var rows := PySlice(img, b.top, b.bottom);
    assert rows == img[b.top..b.bottom];
    var r := CenterCrop(img, Some(th), Some(tw));
    forall i | 0 <= i < th
      ensures |r[i]| == tw
      ensures forall j :: 0 <= j < tw ==> r[i][j] == img[b.top + i][b.left + j]
    {
      assert rows[i] == img[b.top + i];
      assert |rows[i]| == Width(img);
      assert r[i] == PySlice(rows[i], b.left, b.right) == rows[i][b.left..b.right];
    }
  }

  /** Without targets the crop is the largest centred square. */
  lemma CenterCropDefaultSquare<P>(img: seq<seq<P>>)
    requires Rectangular(img)
    ensures var r := CenterCrop(img, None, None);
      var m := Min(Height(img), Width(img));
      && CenterCrop(img, None, None) == CenterCrop(img, Some(m), Some(m))
      && |r| == m && (forall i :: 0 <= i < m ==> |r[i]| == m)
  {
    var m := Min(Height(img), Width(img));
    assert CenterBox(Height(img), Width(img), None, None) == CenterBox(Height(img), Width(img), Some(m), Some(m));
    CenterCropShape(img, m, m);
  }

  /** Whatever the targets (larger than the image, negative), the crop fails
      nowhere and never exceeds the source's extent: Python slices clamp. */
  lemma CenterCropBounded<P>(img: seq<seq<P>>, th: Option<int>, tw: Option<int>)
    requires Rectangular(img)
    ensures var r := CenterCrop(img, th, tw);
      |r| <= Height(img) && forall i :: 0 <= i < |r| ==> |r[i]| <= Width(img)
  {
    var b := CenterBox(Height(img), Width(img), th, tw);
    var rows := PySlice(img, b.top, b.bottom);
    var r := CenterCrop(img, th, tw);
    assert r == Slice2(img, b.top, b.bottom, b.left, b.right);
    forall i | 0 <= i < |r| ensures |r[i]| <= Width(img) {
      var lo, hi := SliceBound(b.top, |img|), SliceBound(b.bottom, |img|);
      assert lo <= hi && rows == img[lo..hi];
      assert rows[i] == img[lo + i];
      assert r[i] == PySlice(rows[i], b.left, b.right);
    }
  }

  // ---------------------------------------------------------------------------
  // Row-major flattening and transposition

  /** Concatenation of the rows: numpy's row-major `reshape` of H×W×… to (H*W)×…. */
  function Concat<P>(m: seq<seq<P>>): seq<P>
    decreases |m|
  {
    if |m| == 0 then [] else m[0] + Concat(m[1..])
  }

  lemma {:induction false} ConcatAppend<P>(a: seq<seq<P>>, b: seq<seq<P>>)
    ensures Concat(a + b) == Concat(a) + Concat(b)
    decreases |a|
  {
    if |a| == 0 {
      assert a + b == b;
    } else {
      assert (a + b)[1..] == a[1..] + b;
      ConcatAppend(a[1..], b);
    }
  }

  /** An H-row array with rows of length W flattens to H*W entries. */
  lemma {:induction false} ConcatLength<P>(m: seq<seq<P>>, w: nat)
    requires forall i :: 0 <= i < |m| ==> |m[i]| == w
    ensures |Concat(m)| == |m| * w
    decreases |m|
  {
    if |m| > 0 {
      ConcatLength(m[1..], w);
      assert |m| * w == w + (|m| - 1) * w;
    }
  }

  /** Entry `r*W + c` of the flattening is entry (r, c): the row-major order. */
  lemma {:induction false} ConcatIndex<P>(m: seq<seq<P>>, w: nat, r: nat, c: nat)
    requires forall i :: 0 <= i < |m| ==> |m[i]| == w
    requires r < |m| && c < w
    ensures r * w + c < |Concat(m)| && Concat(m)[r * w + c] == m[r][c]
    decreases r
  {
    ConcatLength(m, w);
    if r > 0 {
      ConcatIndex(m[1..], w, r - 1, c);
      assert r * w + c == w + ((r - 1) * w + c);
    }
  }

  /** Every entry of a flattening comes from some row, so a property all rows'
      entries share holds of the flattening. */
  lemma {:induction false} ConcatPreservesLength<T>(m: seq<seq<seq<T>>>, n: nat)
    requires forall i, j :: 0 <= i < |m| && 0 <= j < |m[i]| ==> |m[i][j]| == n
    ensures forall k :: 0 <= k < |Concat(m)| ==> |Concat(m)[k]| == n
    decreases |m|
  {
    if |m| > 0 {
      ConcatPreservesLength(m[1..], n);
    }
  }

  /** numpy's `.transpose()` of a 2-D array. */
  function Transpose<T>(m: seq<seq<T>>): (r: seq<seq<T>>)
    requires Rectangular(m)
    ensures |r| == Width(m)
    ensures forall k :: 0 <= k < |r| ==> |r[k]| == |m|
    ensures forall k, i :: 0 <= k < |r| && 0 <= i < |m| ==> r[k][i] == m[i][k]
  {
    seq(Width(m), k requires 0 <= k < Width(m) => seq(|m|, i requires 0 <= i < |m| => m[i][k]))
  }

  /** Transposing twice gives back the array, an empty one included; only an
      array with rows but no columns is lost, since the nested form records no
      width for it. */
  lemma TransposeTwice<T>(m: seq<seq<T>>)
    requires Rectangular(m)
    requires |m| > 0 ==> Width(m) > 0
    ensures Rectangular(Transpose(m)) && Transpose(Transpose(m)) == m
  {
    var t := Transpose(m);
    assert Rectangular(t);
    var tt := Transpose(t);
    assert |tt| == |m|;
    forall i | 0 <= i < |m| ensures tt[i] == m[i] {
      assert |tt[i]| == |t| == |m[i]|;
    }
  }

  /** numpy's `np.concatenate(xs, axis=1)` of 2-D arrays that share their row count. */
  function ConcatColumns<T>(xs: seq<seq<seq<T>>>): (r: seq<seq<T>>)
    requires |xs| > 0
    requires forall i :: 0 <= i < |xs| ==> |xs[i]| == |xs[0]|
    ensures |r| == |xs[0]|
  {
    seq(|xs[0]|, k requires 0 <= k < |xs[0]| => Concat(seq(|xs|, i requires 0 <= i < |xs| => xs[i][k])))
  }

  /** Column `k` of an array whose rows all have more than `k` entries. */
  function Column<T>(m: seq<seq<T>>, k: nat): (r: seq<T>)
    requires forall i :: 0 <= i < |m| ==> k < |m[i]|
    ensures |r| == |m|
  {
    seq(|m|, i requires 0 <= i < |m| => m[i][k])
  }

  lemma {:induction false} ColumnConcat<T>(ms: seq<seq<seq<T>>>, k: nat, w: nat)
    requires k < w
    requires forall i, j :: 0 <= i < |ms| && 0 <= j < |ms[i]| ==> |ms[i][j]| == w
    ensures forall j :: 0 <= j < |Concat(ms)| ==> |Concat(ms)[j]| == w
    ensures Column(Concat(ms), k) == Concat(seq(|ms|, i requires 0 <= i < |ms| => Column(ms[i], k)))
    decreases |ms|
  {
    ConcatPreservesLength(ms, w);
    if |ms| > 0 {
      ColumnConcat(ms[1..], k, w);
      ConcatPreservesLength(ms[1..], w);
      var cols := seq(|ms|, i requires 0 <= i < |ms| => Column(ms[i], k));
      var rest := seq(|ms[1..]|, i requires 0 <= i < |ms[1..]| => Column(ms[1..][i], k));
      assert cols[1..] == rest;
      assert Concat(ms) == ms[0] + Concat(ms[1..]);
      assert Column(Concat(ms), k) == Column(ms[0], k) + Column(Concat(ms[1..]), k);
    }
  }

  /** Concatenating transposes side by side is transposing the stacked arrays. */
  lemma ConcatColumnsOfTransposes<T>(ms: seq<seq<seq<T>>>, w: nat)
    requires |ms| > 0 && w > 0
    requires forall i :: 0 <= i < |ms| ==> |ms[i]| > 0
    requires forall i, j :: 0 <= i < |ms| && 0 <= j < |ms[i]| ==> |ms[i][j]| == w
    ensures forall i :: 0 <= i < |ms| ==> Rectangular(ms[i])
    ensures forall j :: 0 <= j < |Concat(ms)| ==> |Concat(ms)[j]| == w
    ensures var ts := seq(|ms|, i requires 0 <= i < |ms| && Rectangular(ms[i]) => Transpose(ms[i]));
      && (forall i :: 0 <= i < |ts| ==> |ts[i]| == |ts[0]|)
      && Rectangular(Concat(ms))
      && ConcatColumns(ts) == Transpose(Concat(ms))
  {
    ConcatPreservesLength(ms, w);
    assert forall i :: 0 <= i < |ms| ==> Width(ms[i]) == w;
    var ts := seq(|ms|, i requires 0 <= i < |ms| && Rectangular(ms[i]) => Transpose(ms[i]));
    var all := Concat(ms);
    assert all == ms[0] + Concat(ms[1..]);
    var cc := ConcatColumns(ts);
    var tr := Transpose(all);
    assert |cc| == w == |tr|;
    forall k | 0 <= k < w ensures cc[k] == tr[k] {
      ColumnConcat(ms, k, w);
      var parts := seq(|ts|, i requires 0 <= i < |ts| => ts[i][k]);
      assert parts == seq(|ms|, i requires 0 <= i < |ms| => Column(ms[i], k));
      assert tr[k] == Column(all, k);
    }
  }
}
