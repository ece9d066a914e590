/** The array logic of the older hsi_io module (src/python/tools): a centre
    crop that always slices three axes, the crop of a list, and the layout
    arithmetic of show_montage, which places display images four to a row
    with a margin of 3 between them. Its flatten_hsi, flatten_hsis and
    patch_split_hsi are the same text as in medHSIpy's module and are modelled
    there (HsiIo). */
module LegacyHsiIo {
  import opened Wrappers
  import opened NdArray

  // ---------------------------------------------------------------------------
  // Centre crop of a cube

  /** center_crop_hsi: `hsi[top:bottom, left:right, :]` with the window of the
      centre crop; the third axis is kept whole. */
  function CenterCropHsi<T>(hsi: seq<seq<seq<T>>>, targetHeight: Option<int>, targetWidth: Option<int>): seq<seq<seq<T>>>
    requires IsCube(hsi)
  {
    CenterCrop(hsi, targetHeight, targetWidth)
  }

  /** When both targets fit, the crop is a targetHeight × targetWidth × B cube
      whose pixel (i, j) is pixel (top + i, left + j) of the source, with
      `top = ceil((H - targetHeight)/2)`, `left = ceil((W - targetWidth)/2)`,
      and `floor` of the same halves removed at the bottom and on the right. */
  lemma CenterCropHsiShape<T>(hsi: seq<seq<seq<T>>>, th: int, tw: int)
    requires IsCube(hsi)
    requires 0 <= th <= Height(hsi) && 0 <= tw <= Width(hsi)
    ensures |CenterCropHsi(hsi, Some(th), Some(tw))| == th
    ensures forall i :: 0 <= i < th ==> |CenterCropHsi(hsi, Some(th), Some(tw))[i]| == tw
    ensures forall i, j :: 0 <= i < th && 0 <= j < tw ==> |CenterCropHsi(hsi, Some(th), Some(tw))[i][j]| == Bands(hsi)
    ensures var top, left := CeilHalf(Height(hsi) - th), CeilHalf(Width(hsi) - tw);
      forall i, j :: 0 <= i < th && 0 <= j < tw ==> CenterCropHsi(hsi, Some(th), Some(tw))[i][j] == hsi[top + i][left + j]
    ensures CeilHalf(Height(hsi) - th) + th + FloorHalf(Height(hsi) - th) == Height(hsi)
    ensures CeilHalf(Width(hsi) - tw) + tw + FloorHalf(Width(hsi) - tw) == Width(hsi)
  {
    var r := CenterCropHsi(hsi, Some(th), Some(tw));
    var b := CenterBox(Height(hsi), Width(hsi), Some(th), Some(tw));
    CenterCropShape(hsi, th, tw);
    CenterBoxCentred(Height(hsi), Width(hsi), th, tw);
    assert b.top == CeilHalf(Height(hsi) - th) && b.left == CeilHalf(Width(hsi) - tw);
    forall i, j | 0 <= i < th && 0 <= j < tw
      ensures |r[i][j]| == Bands(hsi)
    {
      CubePixel(hsi, b.top + i, b.left + j);
    }
  }

  lemma CubePixel<T>(hsi: seq<seq<seq<T>>>, i: int, j: int)
    requires IsCube(hsi) && 0 <= i < Height(hsi) && 0 <= j < Width(hsi)
    ensures |hsi[i][j]| == Bands(hsi)
  {
    assert |hsi[i]| == Width(hsi);
  }

  /** center_crop_list: one crop per cube, in input order, each call receiving
      `(targetWidth, targetHeight)` in its `(targetHeight, targetWidth)`
      parameters (showImage, which only displays a montage, is left out). */
  method CenterCropList<T>(dataList: seq<seq<seq<seq<T>>>>, targetHeight: int, targetWidth: int)
    returns (croppedData: seq<seq<seq<seq<T>>>>)
    requires forall x :: 0 <= x < |dataList| ==> IsCube(dataList[x])
    ensures |croppedData| == |dataList|
    ensures forall x :: 0 <= x < |dataList| ==>
      croppedData[x] == CenterCropHsi(dataList[x], Some(targetWidth), Some(targetHeight))
  {
    croppedData := [];
    var x := 0;
    while x < |dataList|
      invariant 0 <= x <= |dataList|
      invariant |croppedData| == x
      invariant forall m :: 0 <= m < x ==>
        croppedData[m] == CenterCropHsi(dataList[m], Some(targetWidth), Some(targetHeight))
    {
      var val := CenterCropHsi(dataList[x], Some(targetWidth), Some(targetHeight));
      croppedData := croppedData + [val];
      x := x + 1;
    }
  }

  /** Each cube of a cropped list is targetWidth rows by targetHeight columns
      and keeps its bands: the swap transposes the requested shape. */
  lemma CenterCropListShape<T>(dataList: seq<seq<seq<seq<T>>>>, targetHeight: int, targetWidth: int, x: nat)
    requires forall k :: 0 <= k < |dataList| ==> IsCube(dataList[k])
    requires x < |dataList|
    requires 0 <= targetWidth <= Height(dataList[x]) && 0 <= targetHeight <= Width(dataList[x])
    ensures var r := CenterCropHsi(dataList[x], Some(targetWidth), Some(targetHeight));
      && |r| == targetWidth
      && (forall i :: 0 <= i < |r| ==> |r[i]| == targetHeight)
      && (forall i, j :: 0 <= i < |r| && 0 <= j < targetHeight ==> |r[i][j]| == Bands(dataList[x]))
  {
    CenterCropHsiShape(dataList[x], targetWidth, targetHeight);
  }

  // ---------------------------------------------------------------------------
  // Montage layout

  const RowSize := 4
  const Margin := 3

  /** `(image.shape[0], image.shape[1])` of a display image; show_montage uses
      the first as the horizontal extent and the second as the vertical one. */
  type Shape = (nat, nat)

  function Max(a: int, b: int): (m: int)
    ensures a <= m && b <= m && (m == a || m == b)
  {
    if a >= b then a else b
  }

  /** The variables of show_montage's loop. */
  datatype Cursor = Cursor(maxX: nat, maxY: nat, offsetX: nat, offsetY: nat)

  /** One pass of the loop for image `i` of shape `s`: the extents grow to
      cover the image at the current offset; after every `row_size`-th image
      the next row starts below everything placed so far, otherwise the next
      image goes to the right of this one. */
  function Step(c: Cursor, i: nat, s: Shape): Cursor {
    var mx := Max(c.maxX, c.offsetX + s.0);
    var my := Max(c.maxY, c.offsetY + s.1);
    if i % RowSize == RowSize - 1 then Cursor(mx, my, 0, my + Margin)
    else Cursor(mx, my, c.offsetX + Margin + s.0, c.offsetY)
  }

  /** The loop variables after the first `n` images. */
  function CursorAt(shapes: seq<Shape>, n: nat): Cursor
    requires n <= |shapes|
    decreases n
  {
    if n == 0 then Cursor(0, 0, 0, 0) else Step(CursorAt(shapes, n - 1), n - 1, shapes[n - 1])
  }

  /** A box as PIL takes it: (left, upper, right, lower). */
  datatype Box4 = Box4(left: int, upper: int, right: int, lower: int)

  /** The box show_montage passes to `paste` for image `k`, as written:
      `(max_x, max_y, offset_x, offset_y)`. */
  function PasteBoxAsWritten(shapes: seq<Shape>, k: nat): Box4
    requires k < |shapes|
  {
    var c := CursorAt(shapes, k);
    Box4(c.maxX, c.maxY, c.offsetX, c.offsetY)
  }

  /** The box the layout arithmetic evidently intends for image `k`: the
      image's own extent at the current offset. */
  function PasteBox(shapes: seq<Shape>, k: nat): (b: Box4)
    requires k < |shapes|
    ensures b.right - b.left == shapes[k].0 && b.lower - b.upper == shapes[k].1
    ensures 0 <= b.left && 0 <= b.upper
  {
    var c := CursorAt(shapes, k);
    Box4(c.offsetX, c.offsetY, c.offsetX + shapes[k].0, c.offsetY + shapes[k].1)
  }

  /** The horizontal offset never runs more than one margin past the
      horizontal extent. */
  lemma {:induction false} OffsetNearExtent(shapes: seq<Shape>, n: nat)
    requires n <= |shapes|
    ensures CursorAt(shapes, n).offsetX <= CursorAt(shapes, n).maxX + Margin
    decreases n
  {
    if n > 0 {
      OffsetNearExtent(shapes, n - 1);
    }
  }

  /** As written, every paste box is at most `margin` pixels wide, so for any
      image wider than that the box does not match the image's size (which
      PIL refuses). The first box is (0, 0, 0, 0). */
  lemma PasteBoxAsWrittenMismatch(shapes: seq<Shape>, k: nat)
    requires k < |shapes|
    ensures PasteBoxAsWritten(shapes, k).right - PasteBoxAsWritten(shapes, k).left <= Margin
    ensures shapes[k].0 > Margin ==>
      PasteBoxAsWritten(shapes, k).right - PasteBoxAsWritten(shapes, k).left != shapes[k].0
    ensures k == 0 ==> PasteBoxAsWritten(shapes, k) == Box4(0, 0, 0, 0)
  {
    OffsetNearExtent(shapes, k);
  }

  /** The extents never shrink from one image to the next. */
  lemma ExtentsGrow(shapes: seq<Shape>, n: nat)
    requires n < |shapes|
    ensures CursorAt(shapes, n).maxX <= CursorAt(shapes, n + 1).maxX
    ensures CursorAt(shapes, n).maxY <= CursorAt(shapes, n + 1).maxY
  {
  }

  /** ... and so never shrink over any stretch of images. */
  lemma {:induction false} ExtentsMonotone(shapes: seq<Shape>, m: nat, n: nat)
    requires m <= n <= |shapes|
    ensures CursorAt(shapes, m).maxX <= CursorAt(shapes, n).maxX
    ensures CursorAt(shapes, m).maxY <= CursorAt(shapes, n).maxY
    decreases n - m
  {
    if m < n {
      ExtentsGrow(shapes, m);
      ExtentsMonotone(shapes, m + 1, n);
    }
  }

  /** The offsets after image `n`: back to the left margin and below all
      placed images after every row_size-th image, otherwise one image width
      and a margin further right on the same row. */
  lemma OffsetRule(shapes: seq<Shape>, n: nat)
    requires n < |shapes|
    ensures var c, d := CursorAt(shapes, n), CursorAt(shapes, n + 1);
      if n % RowSize == RowSize - 1 then d.offsetX == 0 && d.offsetY == d.maxY + Margin
      else d.offsetX == c.offsetX + Margin + shapes[n].0 && d.offsetY == c.offsetY
  {
  }

  /** Image `k` is left of or above the cursor: either it ends before the
      current horizontal offset or it ends before the current row. */
  ghost predicate Before(shapes: seq<Shape>, k: nat, c: Cursor)
    requires k < |shapes|
  {
    var b := PasteBox(shapes, k);
    b.right <= c.offsetX || b.lower <= c.offsetY
  }

  /** Every image placed so far lies inside the extents and before the cursor. */
  lemma {:induction false} PlacedBefore(shapes: seq<Shape>, n: nat)
    requires n <= |shapes|
    ensures forall k :: 0 <= k < n ==>
      && PasteBox(shapes, k).right <= CursorAt(shapes, n).maxX
      && PasteBox(shapes, k).lower <= CursorAt(shapes, n).maxY
      && Before(shapes, k, CursorAt(shapes, n))
    decreases n
  {
    if n > 0 {
      PlacedBefore(shapes, n - 1);
      var c, d := CursorAt(shapes, n - 1), CursorAt(shapes, n);
      assert d.offsetY >= c.offsetY && d.maxX >= c.maxX && d.maxY >= c.maxY;
      assert d.offsetX >= c.offsetX || d.offsetY >= d.maxY;
    }
  }

  /** Every placed image lies inside the final crop box (0, 0, max_x, max_y). */
  lemma PasteBoxInsideCrop(shapes: seq<Shape>, k: nat)
    requires k < |shapes|
    ensures var b, c := PasteBox(shapes, k), CursorAt(shapes, |shapes|);
      0 <= b.left && b.right <= c.maxX && 0 <= b.upper && b.lower <= c.maxY
  {
    PlacedBefore(shapes, |shapes|);
  }

  /** Two different images never overlap. */
  lemma PasteBoxesDisjoint(shapes: seq<Shape>, j: nat, k: nat)
    requires j < k < |shapes|
    ensures var a, b := PasteBox(shapes, j), PasteBox(shapes, k);
      a.right <= b.left || a.lower <= b.upper
  {
    PlacedBefore(shapes, k);
  }

  // ---------------------------------------------------------------------------
  // Canvas size

  /** `max(...)` over a non-empty sequence. */
  function MaxOf(xs: seq<int>): (m: int)
    requires |xs| > 0
    ensures forall i :: 0 <= i < |xs| ==> xs[i] <= m
    ensures exists i :: 0 <= i < |xs| && xs[i] == m
    decreases |xs|
  {
    if |xs| == 1 then xs[0]
    else
      var rest := MaxOf(xs[1..]);
      assert forall i :: 1 <= i < |xs| ==> xs[i] == xs[1..][i - 1];
      Max(xs[0], rest)
  }

  /** `sum(...)`. */
  function SumOf(xs: seq<int>): int
    decreases |xs|
  {
    if |xs| == 0 then 0 else SumOf(xs[..|xs| - 1]) + xs[|xs| - 1]
  }

  function Widths(shapes: seq<Shape>): (r: seq<int>)
    ensures |r| == |shapes| && forall i :: 0 <= i < |r| ==> r[i] == shapes[i].0 + Margin
  {
    seq(|shapes|, i requires 0 <= i < |shapes| => shapes[i].0 + Margin)
  }

  function Heights(shapes: seq<Shape>): (r: seq<int>)
    ensures |r| == |shapes| && forall i :: 0 <= i < |r| ==> r[i] == shapes[i].1 + Margin
  {
    seq(|shapes|, i requires 0 <= i < |shapes| => shapes[i].1 + Margin)
  }

  /** The canvas show_montage allocates: `max(shape[0] + margin) * row_size`
      wide and `sum(shape[1] + margin)` high; max() of no images is a ValueError. */
  function Canvas(shapes: seq<Shape>): (r: Result<(int, int)>)
    ensures r.Err? <==> |shapes| == 0
    ensures r.Err? ==> r.error == ValueError
  {
    if |shapes| == 0 then Err(ValueError)
    else Ok((MaxOf(Widths(shapes)) * RowSize, SumOf(Heights(shapes))))
  }

  /** Within a row the horizontal offset is at most one image slot (the
      widest image plus a margin) per image already in the row, so the
      horizontal extent is at most row_size slots. */
  lemma {:induction false} CursorWithinWidth(shapes: seq<Shape>, n: nat, slot: int)
    requires n <= |shapes| && slot >= 0
    requires forall i :: 0 <= i < |shapes| ==> shapes[i].0 + Margin <= slot
    ensures CursorAt(shapes, n).offsetX <= (n % RowSize) * slot
    ensures CursorAt(shapes, n).maxX <= RowSize * slot
    decreases n
  {
    if n > 0 {
      CursorWithinWidth(shapes, n - 1, slot);
      var c, i := CursorAt(shapes, n - 1), n - 1;
      assert CursorAt(shapes, n) == Step(c, i, shapes[i]);
      assert shapes[i].0 + Margin <= slot;
      var before := (i % RowSize) * slot;
      var after := (n % RowSize) * slot;
      SlotStep(i, slot);
      assert c.offsetX + shapes[i].0 <= before + slot <= RowSize * slot;
      if i % RowSize != RowSize - 1 {
        assert c.offsetX + Margin + shapes[i].0 <= after;
      } else {
        assert 0 <= after;
      }
    }
  }

  lemma SlotStep(i: nat, slot: int)
    requires slot >= 0
    ensures (i % RowSize) * slot + slot <= RowSize * slot
    ensures i % RowSize != RowSize - 1 ==> (i % RowSize) * slot + slot == ((i + 1) % RowSize) * slot
    ensures 0 <= ((i + 1) % RowSize) * slot
  {
    var k := i % RowSize;
    assert 0 <= k < RowSize;
    assert k * slot + slot == (k + 1) * slot;
    if k != RowSize - 1 {
      assert (i + 1) % RowSize == k + 1;
    }
    assert (k + 1) * slot <= RowSize * slot;
  }

  /** The vertical offset and extent are at most the heights (plus margins)
      of the images placed so far. */
  lemma {:induction false} CursorWithinHeight(shapes: seq<Shape>, n: nat)
    requires n <= |shapes|
    ensures CursorAt(shapes, n).offsetY <= SumOf(Heights(shapes[..n]))
    ensures CursorAt(shapes, n).maxY <= SumOf(Heights(shapes[..n]))
    decreases n
  {
    if n > 0 {
      CursorWithinHeight(shapes, n - 1);
      assert Heights(shapes[..n])[..n - 1] == Heights(shapes[..n - 1]);
    }
  }

  /** Every placed image, and so the final crop, lies inside the canvas. */
  lemma PasteBoxInsideCanvas(shapes: seq<Shape>, k: nat)
    requires k < |shapes|
    ensures var b, c, cv := PasteBox(shapes, k), CursorAt(shapes, |shapes|), Canvas(shapes).value;
      b.right <= c.maxX <= cv.0 && b.lower <= c.maxY <= cv.1
  {
    PasteBoxInsideCrop(shapes, k);
    assert shapes[..|shapes|] == shapes;
    CursorWithinWidth(shapes, |shapes|, MaxOf(Widths(shapes)));
    CursorWithinHeight(shapes, |shapes|);
  }

  // ---------------------------------------------------------------------------
  // show_montage

  /** What show_montage computes: the canvas size, the box each image is
      pasted into (in the corrected form, see PasteBox) and the final crop box. */
  datatype Montage = Montage(width: int, height: int, pastes: seq<Box4>, crop: Box4)

  /** The loop of show_montage: the box each image is pasted into (in the
      corrected form, see PasteBox) and the final crop box. */
  method PlaceImages(shapes: seq<Shape>) returns (pastes: seq<Box4>, crop: Box4)
    ensures |pastes| == |shapes|
    ensures forall k :: 0 <= k < |shapes| ==> pastes[k] == PasteBox(shapes, k)
    ensures crop == Box4(0, 0, CursorAt(shapes, |shapes|).maxX, CursorAt(shapes, |shapes|).maxY)
  {
    var maxX: nat, maxY: nat, offsetX: nat, offsetY: nat := 0, 0, 0, 0;
    pastes := [];
    var i := 0;
    while i < |shapes|
      invariant 0 <= i <= |shapes|
      invariant Cursor(maxX, maxY, offsetX, offsetY) == CursorAt(shapes, i)
      invariant |pastes| == i
      invariant forall k :: 0 <= k < i ==> pastes[k] == PasteBox(shapes, k)
    {
      var image := shapes[i];
      assert CursorAt(shapes, i + 1) == Step(CursorAt(shapes, i), i, image);
      pastes := pastes + [Box4(offsetX, offsetY, offsetX + image.0, offsetY + image.1)];
      maxX := Max(maxX, offsetX + image.0);
      maxY := Max(maxY, offsetY + image.1);
      if i % RowSize == RowSize - 1 {
        offsetY := maxY + Margin;
        offsetX := 0;
      } else {
        offsetX := offsetX + Margin + image.0;
      }
      i := i + 1;
    }
    crop := Box4(0, 0, maxX, maxY);
  }

  /** show_montage over the shapes of the display images (get_display_image
      and the PIL drawing are left out): the canvas size, then the layout. */
  method ShowMontage(shapes: seq<Shape>) returns (r: Result<Montage>)
    ensures r.Err? <==> |shapes| == 0
    ensures r.Ok? ==>
      && r.value.width == Canvas(shapes).value.0 && r.value.height == Canvas(shapes).value.1
      && |r.value.pastes| == |shapes|
      && (forall k :: 0 <= k < |shapes| ==> r.value.pastes[k] == PasteBox(shapes, k))
      && r.value.crop == Box4(0, 0, CursorAt(shapes, |shapes|).maxX, CursorAt(shapes, |shapes|).maxY)
  {
    if |shapes| == 0 {
      return Err(ValueError);
    }
    var width := MaxOf(Widths(shapes)) * RowSize;
    var height := SumOf(Heights(shapes));
    var pastes, crop := PlaceImages(shapes);
    r := Ok(Montage(width, height, pastes, crop));
  }
}
