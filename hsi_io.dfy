/** The array and path logic of medHSIpy's hsi_io module: listing files,
    locating the project root, arranging the axes of stored cubes, turning mask
    images into labels, the centre crop, flattening cubes into pixel rows, and
    splitting a cube into patches. File access (h5py, cv2.imread, os.listdir,
    os.getcwd) is outside the model: its results are parameters. */
module HsiIo {
  import opened Wrappers
  import opened Text
  import opened NdArray

  /** The number of spectral bands of a stored cube in the expected layout. */
  const NumBands := 311

  /** cv2.threshold's threshold and maximum value in get_labels_from_mask. */
  const MaskThreshold := 170
  const MaskMaxValue := 255

  // ---------------------------------------------------------------------------
  // Paths

  /** The names of a directory listing that contain `target`, in listing order. */
  function Kept(listing: seq<string>, target: string): (r: seq<string>)
    ensures |r| <= |listing|
    ensures forall x :: x in r <==> x in listing && Contains(x, target)
    decreases |listing|
  {
    if |listing| == 0 then []
    else if Contains(listing[0], target) then [listing[0]] + Kept(listing[1..], target)
    else Kept(listing[1..], target)
  }

  /** Filtering keeps the listing's order: filtering two parts and concatenating
      the results is filtering the concatenation. */
  lemma {:induction false} KeptAppend(a: seq<string>, b: seq<string>, target: string)
    ensures Kept(a + b, target) == Kept(a, target) + Kept(b, target)
    decreases |a|
  {
    if |a| == 0 {
      assert a + b == b;
    } else {
      assert (a + b)[1..] == a[1..] + b;
      KeptAppend(a[1..], b, target);
    }
  }

  /** get_filenames: each listed name containing `target` (default ".mat"),
      joined to `folder` by `join` (os.path.join), in listing order. */
  function GetFilenames(folder: string, listing: seq<string>, target: string,
                        join: (string, string) -> string): (r: seq<string>)
    ensures |r| == |Kept(listing, target)|
    ensures forall k :: 0 <= k < |r| ==> r[k] == join(folder, Kept(listing, target)[k])
  {
    var kept := Kept(listing, target);
    seq(|kept|, k requires 0 <= k < |kept| => join(folder, kept[k]))
  }

  /** `os.path.join(*parts)`: the binary join applied from the left. */
  function JoinAll(parts: seq<string>, join: (string, string) -> string): string
    requires |parts| >= 1
    decreases |parts|
  {
    if |parts| == 1 then parts[0] else JoinAll([join(parts[0], parts[1])] + parts[2..], join)
  }

  /** The components get_base_dir hands to os.path.join: the working directory
      split on backslashes, cut after the first "medHSI" component, with the
      separator inserted at position 1. */
  function BaseDirParts(cwd: string, osSep: string): (r: Result<seq<string>>)
    ensures r.Ok? <==> "medHSI" in Split(cwd, '\\')
    ensures r.Err? ==> r.error == ValueError
    ensures r.Ok? ==>
      var parts := Split(cwd, '\\');
      var k := |r.value| - 2;
      && 0 <= k < |parts|
      && parts[k] == "medHSI" && "medHSI" !in parts[..k]
      && r.value == [parts[0], osSep] + parts[1..k + 1]
  {
    var parts := Split(cwd, '\\');
    match IndexOf(parts, "medHSI")
    case Err(e) => Err(e)
    case Ok(k) =>
      var kept := parts[..k + 1];
      assert kept[1..] == parts[1..k + 1];
      Ok([kept[0], osSep] + kept[1..])
  }

  /** get_base_dir: the working directory truncated after its first "medHSI"
      component; ValueError when there is none. */
  function GetBaseDir(cwd: string, osSep: string, join: (string, string) -> string): (r: Result<string>)
    ensures r.Ok? <==> "medHSI" in Split(cwd, '\\')
    ensures r.Err? ==> r.error == ValueError
    ensures r.Ok? ==> r.value == JoinAll(BaseDirParts(cwd, osSep).value, join)
  {
    match BaseDirParts(cwd, osSep)
    case Err(e) => Err(e)
    case Ok(parts) => Ok(JoinAll(parts, join))
  }

  /** Leaving out the inserted separator, the parts are the working directory's
      components up to the first "medHSI": joined with backslashes they are a
      prefix of the working directory that ends in "medHSI". */
  lemma BaseDirIsPrefix(cwd: string, osSep: string)
    requires "medHSI" in Split(cwd, '\\')
    ensures var r := BaseDirParts(cwd, osSep).value;
      var root := JoinWith(r[..1] + r[2..], '\\');
      && IsPrefix(root, cwd)
      && |root| >= 6 && root[|root| - 6..] == "medHSI"
  {
    var parts := Split(cwd, '\\');
    var r := BaseDirParts(cwd, osSep).value;
    var k := |r| - 2;
    assert r[..1] + r[2..] == parts[..k + 1];
    JoinWithPrefix(parts, k + 1, '\\');
    JoinSplit(cwd, '\\');
    JoinWithEnds(parts[..k + 1], '\\');
    assert parts[..k + 1][k] == "medHSI";
  }

  // ---------------------------------------------------------------------------
  // Axis order of stored cubes (load_dataset)

  /** `np.transpose(val, [1, 2, 0])`: axis 0 moves to the back. */
  function AxisToBack<T>(val: seq<seq<seq<T>>>): (r: seq<seq<seq<T>>>)
    requires IsCube(val)
    ensures |r| == Width(val)
    ensures forall i :: 0 <= i < |r| ==> |r[i]| == Bands(val)
    ensures forall i, j :: 0 <= i < |r| && 0 <= j < |r[i]| ==> |r[i][j]| == Height(val)
    ensures forall i, j, k :: 0 <= i < Width(val) && 0 <= j < Bands(val) && 0 <= k < Height(val) ==>
      r[i][j][k] == val[k][i][j]
  {
    seq(Width(val), i requires 0 <= i < Width(val) =>
      seq(Bands(val), j requires 0 <= j < Bands(val) =>
        seq(Height(val), k requires 0 <= k < Height(val) => val[k][i][j])))
  }

  /** load_dataset's layout rule: a cube whose third axis is not the 311 bands
      is stored bands-first and is rearranged. */
  function Arrange<T>(val: seq<seq<seq<T>>>): (r: seq<seq<seq<T>>>)
    requires IsCube(val)
  {
    if Bands(val) != NumBands then AxisToBack(val) else val
  }

  /** A cube stored bands-first (311 × H × W, H and W positive) is
      rearranged into H × W × 311 with each pixel's band vector gathered from
      the 311 planes; a cube already in that layout is left as it is. */
  lemma ArrangeLayout<T>(val: seq<seq<seq<T>>>)
    requires IsCube(val)
    ensures IsCube(Arrange(val))
    ensures Bands(val) == NumBands ==> Arrange(val) == val
    ensures Height(val) == NumBands && Width(val) > 0 && Bands(val) > 0 && Bands(val) != NumBands ==>
      && Height(Arrange(val)) == Width(val) && Width(Arrange(val)) == Bands(val)
      && Bands(Arrange(val)) == NumBands
      && forall i, j, k :: 0 <= i < Width(val) && 0 <= j < Bands(val) && 0 <= k < NumBands ==>
           Arrange(val)[i][j][k] == val[k][i][j]
  {
    if Bands(val) != NumBands {
      var r := AxisToBack(val);
      if |r| > 0 && |r[0]| > 0 {
        assert Bands(r) == Height(val);
      }
    }
  }

  /** What load_dataset returns for each sample type. */
  datatype Dataset<T> =
    | PixelRows(rows: seq<seq<T>>)          // 'pixel': flatten_hsis of the cubes
    | Images(cubes: seq<seq<seq<seq<T>>>>)  // 'image': the cubes themselves
    | NoData                                // 'patch' (not implemented) and unsupported types: []

  /** load_dataset after the HDF5 file is read: the file's datasets in key
      order are rearranged one by one and appended, then the sample type picks
      the form of the result; the key list is returned unchanged. */
  method LoadDataset<T>(keys: seq<string>, stored: seq<seq<seq<seq<T>>>>, sampleType: string)
    returns (dataList: Result<Dataset<T>>, keyList: seq<string>)
    requires |keys| == |stored|
    requires forall i :: 0 <= i < |stored| ==> IsCube(stored[i])
    ensures keyList == keys
    ensures var arranged := seq(|stored|, i requires 0 <= i < |stored| => Arrange(stored[i]));
      && (forall i :: 0 <= i < |arranged| ==> IsCube(arranged[i]))
      && dataList == (if sampleType == "pixel" then
                        match FlattenHsis(arranged)
                        case Ok(rows) => Ok(PixelRows(rows))
                        case Err(e) => Err(e)
                      else if sampleType == "image" then Ok(Images(arranged))
                      else Ok(NoData))
  {
    var hsiList: seq<seq<seq<seq<T>>>> := [];
    var n := 0;
    while n < |keys|
      invariant 0 <= n <= |keys|
      invariant |hsiList| == n
      invariant forall i :: 0 <= i < n ==> IsCube(stored[i]) && hsiList[i] == Arrange(stored[i])
      invariant forall i :: 0 <= i < n ==> IsCube(hsiList[i])
    {
      var val := stored[n];
      ArrangeLayout(val);
      if Bands(val) != NumBands {
        val := AxisToBack(val);
      }
      hsiList := hsiList + [val];
      n := n + 1;
    }
    ghost var arranged := seq(|stored|, i requires 0 <= i < |stored| => Arrange(stored[i]));
    assert hsiList == arranged;
    if sampleType == "pixel" {
      match FlattenHsis(hsiList)
      case Ok(rows) => dataList := Ok(PixelRows(rows));
      case Err(e) => dataList := Err(e);
    } else if sampleType == "patch" {
      dataList := Ok(NoData);
    } else if sampleType == "image" {
      dataList := Ok(Images(hsiList));
    } else {
      dataList := Ok(NoData);
    }
    keyList := keys;
  }

  // ---------------------------------------------------------------------------
  // Labels from mask images

  /** cv2.threshold with THRESH_BINARY: the maximum value above the threshold, 0 otherwise. */
  function BinaryThreshold(g: int, thresh: int, maxValue: int): int {
    if g > thresh then maxValue else 0
  }

  /** np.logical_not followed by astype(np.int8). */
  function LogicalNot(v: int): int {
    if v == 0 then 1 else 0
  }

  /** The label image of one mask: the grey level (an uninterpreted conversion
      of each pixel, cv2's BGR-to-grey) thresholded at 170 and inverted. */
  function LabelImage<P>(img: seq<seq<P>>, grey: P -> int): (r: seq<seq<int>>)
    ensures |r| == |img| && forall i :: 0 <= i < |img| ==> |r[i]| == |img[i]|
  {
    seq(|img|, i requires 0 <= i < |img| =>
      seq(|img[i]|, j requires 0 <= j < |img[i]| =>
        LogicalNot(BinaryThreshold(grey(img[i][j]), MaskThreshold, MaskMaxValue))))
  }

  /** A label pixel is 1 exactly when its grey level is at most 170, and 0
      otherwise: dark marks on the mask are the lesion. */
  lemma LabelImageMeaning<P>(img: seq<seq<P>>, grey: P -> int, i: nat, j: nat)
    requires i < |img| && j < |img[i]|
    ensures LabelImage(img, grey)[i][j] == 1 <==> grey(img[i][j]) <= MaskThreshold
    ensures LabelImage(img, grey)[i][j] == 0 <==> grey(img[i][j]) > MaskThreshold
  {
    assert MaskMaxValue != 0;
  }

  /** get_labels_from_mask: one label image per mask, in input order. */
  method GetLabelsFromMask<P>(imgList: seq<seq<seq<P>>>, grey: P -> int) returns (labels: seq<seq<seq<int>>>)
    ensures |labels| == |imgList|
    ensures forall k :: 0 <= k < |imgList| ==> labels[k] == LabelImage(imgList[k], grey)
  {
    labels := [];
    for k := 0 to |imgList|
      invariant |labels| == k
      invariant forall m :: 0 <= m < k ==> labels[m] == LabelImage(imgList[m], grey)
    {
      var labelImg := LabelImage(imgList[k], grey);
      labels := labels + [labelImg];
    }
  }

  // ---------------------------------------------------------------------------
  // Centre crop

  /** A numpy array of two or three dimensions. */
  datatype NdImage<T> = Plane(grey: seq<seq<T>>) | Volume(cube: seq<seq<seq<T>>>)

  /** center_crop_hsi: the centre crop on the first two axes; a 3-D array keeps
      all its bands and stays 3-D, a 2-D array stays 2-D. */
  function CenterCropHsi<T>(hsi: NdImage<T>, targetHeight: Option<int>, targetWidth: Option<int>): (r: NdImage<T>)
    ensures r.Volume? <==> hsi.Volume?
  {
    match hsi
    case Volume(c) => Volume(CenterCrop(c, targetHeight, targetWidth))
    case Plane(g) => Plane(CenterCrop(g, targetHeight, targetWidth))
  }

  function ImageHeight<T>(x: NdImage<T>): nat {
    match x
    case Volume(c) => Height(c)
    case Plane(g) => Height(g)
  }

  function ImageWidth<T>(x: NdImage<T>): nat {
    match x
    case Volume(c) => Width(c)
    case Plane(g) => Width(g)
  }

  ghost predicate IsArray<T>(x: NdImage<T>) {
    match x
    case Volume(c) => IsCube(c)
    case Plane(g) => Rectangular(g)
  }

  /** center_crop_list: one crop per input, in input order; each call receives
      `(targetWidth, targetHeight)` in its `(targetHeight, targetWidth)`
      parameters. */
  method CenterCropList<T>(dataList: seq<NdImage<T>>, targetHeight: int, targetWidth: int)
    returns (croppedData: seq<NdImage<T>>)
    ensures |croppedData| == |dataList|
    ensures forall x :: 0 <= x < |dataList| ==>
      croppedData[x] == CenterCropHsi(dataList[x], Some(targetWidth), Some(targetHeight))
  {
    croppedData := [];
    for x := 0 to |dataList|
      invariant |croppedData| == x
      invariant forall m :: 0 <= m < x ==>
        croppedData[m] == CenterCropHsi(dataList[m], Some(targetWidth), Some(targetHeight))
    {
      var val := CenterCropHsi(dataList[x], Some(targetWidth), Some(targetHeight));
      croppedData := croppedData + [val];
    }
  }

  /** Because of the swap, a crop of a list comes out `targetWidth` rows high
      and `targetHeight` columns wide: transposed from what the parameter
      names say unless the two targets are equal. */
  lemma CenterCropListSwapped<T>(x: NdImage<T>, targetHeight: int, targetWidth: int)
    requires IsArray(x)
    requires 0 <= targetWidth <= ImageHeight(x) && 0 <= targetHeight <= ImageWidth(x)
    ensures var r := CenterCropHsi(x, Some(targetWidth), Some(targetHeight));
      ImageHeight(r) == targetWidth && (ImageHeight(r) > 0 ==> ImageWidth(r) == targetHeight)
  {
    match x
    case Volume(c) => CenterCropShape(c, targetWidth, targetHeight);
    case Plane(g) => CenterCropShape(g, targetWidth, targetHeight);
  }

  // ---------------------------------------------------------------------------
  // Flattening

  /** flatten_hsi: the cube reshaped to (H*W) × B in row-major order, then
      transposed to B × (H*W). */
  function FlattenHsi<T>(hsi: seq<seq<seq<T>>>): (r: seq<seq<T>>)
    requires IsCube(hsi)
    ensures forall k :: 0 <= k < |r| ==> |r[k]| == |Concat(hsi)|
  {
    ConcatPreservesLength(hsi, Bands(hsi));
    Transpose(Concat(hsi))
  }

  /** Column r*W + c of flatten_hsi is the band vector of pixel (r, c). */
  lemma FlattenHsiLayout<T>(hsi: seq<seq<seq<T>>>, r: nat, c: nat, k: nat)
    requires IsCube(hsi)
    requires r < Height(hsi) && c < Width(hsi) && k < Bands(hsi)
    ensures |FlattenHsi(hsi)| == Bands(hsi)
    ensures |FlattenHsi(hsi)[k]| == Height(hsi) * Width(hsi)
    ensures r * Width(hsi) + c < Height(hsi) * Width(hsi)
    ensures FlattenHsi(hsi)[k][r * Width(hsi) + c] == hsi[r][c][k]
  {
    ConcatLength(hsi, Width(hsi));
    ConcatIndex(hsi, Width(hsi), r, c);
    ConcatPreservesLength(hsi, Bands(hsi));
    assert Concat(hsi) == hsi[0] + Concat(hsi[1..]);
    assert Concat(hsi)[0] == hsi[0][0];
  }

  /** All flattened cubes have the same number of rows, as np.concatenate along axis 1 demands. */
  predicate SameRowCount<T>(xs: seq<seq<seq<T>>>)
    requires |xs| > 0
  {
    forall i :: 0 <= i < |xs| ==> |xs[i]| == |xs[0]|
  }

  lemma {:induction false} ConcatRowLengths<T>(xs: seq<seq<seq<T>>>, k1: nat, k2: nat)
    requires |xs| > 0
    requires forall i :: 0 <= i < |xs| ==> Rectangular(xs[i]) && k1 < |xs[i]| && k2 < |xs[i]|
    ensures |Concat(seq(|xs|, i requires 0 <= i < |xs| => xs[i][k1]))|
         == |Concat(seq(|xs|, i requires 0 <= i < |xs| => xs[i][k2]))|
    decreases |xs|
  {
    var a := seq(|xs|, i requires 0 <= i < |xs| => xs[i][k1]);
    var b := seq(|xs|, i requires 0 <= i < |xs| => xs[i][k2]);
    assert |a[0]| == |b[0]|;
    if |xs| > 1 {
      ConcatRowLengths(xs[1..], k1, k2);
      assert a[1..] == seq(|xs[1..]|, i requires 0 <= i < |xs[1..]| => xs[1..][i][k1]);
      assert b[1..] == seq(|xs[1..]|, i requires 0 <= i < |xs[1..]| => xs[1..][i][k2]);
    } else {
      assert a[1..] == [] && b[1..] == [];
    }
  }

  /** flatten_hsis: the flattened cubes side by side along axis 1, transposed;
      np.concatenate raises ValueError for no cubes and for band counts that differ. */
  function FlattenHsis<T>(imgList: seq<seq<seq<seq<T>>>>): (r: Result<seq<seq<T>>>)
    requires forall i :: 0 <= i < |imgList| ==> IsCube(imgList[i])
    ensures |imgList| == 0 ==> r == Err(ValueError)
  {
    if |imgList| == 0 then Err(ValueError)
    else
      var xs := seq(|imgList|, i requires 0 <= i < |imgList| => FlattenHsi(imgList[i]));
      if !SameRowCount(xs) then Err(ValueError)
      else
        var cols := ConcatColumns(xs);
        assert Rectangular(cols) by {
          if |xs[0]| > 0 {
            forall k | 0 <= k < |cols| ensures |cols[k]| == |cols[0]| {
              ConcatRowLengths(xs, k, 0);
            }
          }
        }
        Ok(Transpose(cols))
  }

  /** The number of pixels of the first `n` cubes. */
  function PixelCount<T>(imgList: seq<seq<seq<seq<T>>>>, n: nat): nat
    requires n <= |imgList|
  {
    if n == 0 then 0 else PixelCount(imgList, n - 1) + Height(imgList[n - 1]) * Width(imgList[n - 1])
  }

  /** All cubes are non-empty and share one positive band count. */
  ghost predicate SameBands<T>(imgList: seq<seq<seq<seq<T>>>>, b: nat) {
    forall i :: 0 <= i < |imgList| ==>
      IsCube(imgList[i]) && Height(imgList[i]) > 0 && Width(imgList[i]) > 0 && Bands(imgList[i]) == b
  }

  /** Each cube reshaped to its pixel rows. */
  function PixelParts<T>(imgList: seq<seq<seq<seq<T>>>>): (r: seq<seq<seq<T>>>)
    ensures |r| == |imgList| && forall i :: 0 <= i < |r| ==> r[i] == Concat(imgList[i])
  {
    seq(|imgList|, i requires 0 <= i < |imgList| => Concat(imgList[i]))
  }

  /** For non-empty cubes with the same positive band count, flatten_hsis gives
      the pixel rows of all cubes one after another, each cube in row-major order. */
  lemma FlattenHsisIsPixelRows<T>(imgList: seq<seq<seq<seq<T>>>>, b: nat)
    requires |imgList| > 0 && b > 0 && SameBands(imgList, b)
    ensures FlattenHsis(imgList) == Ok(Concat(PixelParts(imgList)))
  {
    var ms := PixelParts(imgList);
    forall i | 0 <= i < |ms|
      ensures |ms[i]| > 0
      ensures forall j :: 0 <= j < |ms[i]| ==> |ms[i][j]| == b
    {
      ConcatPreservesLength(imgList[i], b);
      assert ms[i] == imgList[i][0] + Concat(imgList[i][1..]);
    }
    var xs := seq(|imgList|, i requires 0 <= i < |imgList| => FlattenHsi(imgList[i]));
    ConcatColumnsOfTransposes(ms, b);
    var ts := seq(|ms|, i requires 0 <= i < |ms| && Rectangular(ms[i]) => Transpose(ms[i]));
    assert xs == ts;
    TransposeTwice(Concat(ms));
  }

  lemma {:induction false} ConcatPrefixLength<T>(imgList: seq<seq<seq<seq<T>>>>, n: nat)
    requires n <= |imgList|
    requires forall i :: 0 <= i < |imgList| ==> Rectangular(imgList[i])
    ensures |Concat(PixelParts(imgList)[..n])| == PixelCount(imgList, n)
    decreases n
  {
    if n > 0 {
      var parts := PixelParts(imgList);
      assert parts[..n] == parts[..n - 1] + [parts[n - 1]];
      ConcatAppend(parts[..n - 1], [parts[n - 1]]);
      assert Concat([parts[n - 1]]) == parts[n - 1];
      ConcatLength(imgList[n - 1], Width(imgList[n - 1]));
      ConcatPrefixLength(imgList, n - 1);
    }
  }

  /** The pixel rows number sum of H_i*W_i, each holding B values. */
  lemma PixelRowsShape<T>(imgList: seq<seq<seq<seq<T>>>>, b: nat)
    requires SameBands(imgList, b)
    ensures |Concat(PixelParts(imgList))| == PixelCount(imgList, |imgList|)
    ensures forall p :: 0 <= p < |Concat(PixelParts(imgList))| ==> |Concat(PixelParts(imgList))[p]| == b
  {
    var parts := PixelParts(imgList);
    assert parts[..|imgList|] == parts;
    ConcatPrefixLength(imgList, |imgList|);
    forall j | 0 <= j < |parts|
      ensures forall q :: 0 <= q < |parts[j]| ==> |parts[j][q]| == b
    {
      ConcatPreservesLength(imgList[j], b);
    }
    ConcatPreservesLength(parts, b);
  }

  /** Row PixelCount(i) + r*W_i + c of the pixel rows is pixel (r, c) of cube i. */
  lemma PixelRowsAt<T>(imgList: seq<seq<seq<seq<T>>>>, i: nat, r: nat, c: nat)
    requires forall j :: 0 <= j < |imgList| ==> Rectangular(imgList[j])
    requires i < |imgList| && r < Height(imgList[i]) && c < Width(imgList[i])
    ensures c < |imgList[i][r]|
    ensures var p := PixelCount(imgList, i) + r * Width(imgList[i]) + c;
      p < |Concat(PixelParts(imgList))| && Concat(PixelParts(imgList))[p] == imgList[i][r][c]
  {
    assert Rectangular(imgList[i]);
    var parts := PixelParts(imgList);
    var w := Width(imgList[i]);
    var before, here := Concat(parts[..i]), Concat(parts[i..]);
    assert parts == parts[..i] + parts[i..];
    ConcatAppend(parts[..i], parts[i..]);
    ConcatPrefixLength(imgList, i);
    assert here == parts[i] + Concat(parts[i + 1..]);
    ConcatIndex(imgList[i], w, r, c);
    var q := r * w + c;
    assert q < |parts[i]| && parts[i][q] == imgList[i][r][c];
    assert here[q] == parts[i][q];
    assert Concat(parts) == before + here;
    assert Concat(parts)[|before| + q] == here[q];
  }

  /** flatten_hsis has one row per pixel of all the cubes, sum of H_i*W_i rows
      of B values, and the row for pixel (r, c) of cube i is that pixel's band vector. */
  lemma FlattenHsisRow<T>(imgList: seq<seq<seq<seq<T>>>>, b: nat, i: nat, r: nat, c: nat)
    requires |imgList| > 0 && b > 0 && SameBands(imgList, b)
    requires i < |imgList| && r < Height(imgList[i]) && c < Width(imgList[i])
    ensures FlattenHsis(imgList).Ok?
    ensures |FlattenHsis(imgList).value| == PixelCount(imgList, |imgList|)
    ensures forall p :: 0 <= p < |FlattenHsis(imgList).value| ==> |FlattenHsis(imgList).value[p]| == b
    ensures c < |imgList[i][r]|
    ensures var p := PixelCount(imgList, i) + r * Width(imgList[i]) + c;
      p < |FlattenHsis(imgList).value| && FlattenHsis(imgList).value[p] == imgList[i][r][c]
  {
    FlattenHsisIsPixelRows(imgList, b);
    PixelRowsShape(imgList, b);
    PixelRowsAt(imgList, i, r, c);
  }

  // ---------------------------------------------------------------------------
  // Patches

  /** The first of `np.meshgrid(np.arange(nx), np.arange(ny))`: ny rows of 0..nx-1. */
  function GridX(nx: nat, ny: nat): (g: seq<seq<nat>>)
    ensures |g| == ny && forall r :: 0 <= r < ny ==> |g[r]| == nx
  {
    seq(ny, row requires 0 <= row < ny => seq(nx, col requires 0 <= col < nx => col as nat))
  }

  /** The second of the meshgrid: row y holds y throughout. */
  function GridY(nx: nat, ny: nat): (g: seq<seq<nat>>)
    ensures |g| == ny && forall r :: 0 <= r < ny ==> |g[r]| == nx
  {
    seq(ny, row requires 0 <= row < ny => seq(nx, col requires 0 <= col < nx => row as nat))
  }

  /** `zip(patchIndex[0].flatten(), patchIndex[1].flatten())`: the (x, y) grid
      positions in the order the loop visits them. */
  function VisitOrder(nx: nat, ny: nat): (r: seq<(nat, nat)>)
    ensures |r| == nx * ny
  {
    var fx, fy := Concat(GridX(nx, ny)), Concat(GridY(nx, ny));
    ConcatLength(GridX(nx, ny), nx);
    ConcatLength(GridY(nx, ny), nx);
    seq(|fx|, t requires 0 <= t < |fx| => (fx[t], fy[t]))
  }

  /** The grid is visited row of y by row of y, with x varying fastest, so each
      of the nx*ny positions comes exactly at index y*nx + x. */
  lemma VisitOrderAt(nx: nat, ny: nat, x: nat, y: nat)
    requires x < nx && y < ny
    ensures y * nx + x < |VisitOrder(nx, ny)| && VisitOrder(nx, ny)[y * nx + x] == (x, y)
  {
    ConcatIndex(GridX(nx, ny), nx, y, x);
    ConcatIndex(GridY(nx, ny), nx, y, x);
  }

  lemma LastCell(nx: nat, ny: nat)
    requires nx > 0 && ny > 0
    ensures nx * ny > 0 && (ny - 1) * nx + (nx - 1) == nx * ny - 1
  {
  }

  /** The last position visited is (nx-1, ny-1). */
  lemma VisitOrderLast(nx: nat, ny: nat)
    requires nx > 0 && ny > 0
    ensures |VisitOrder(nx, ny)| > 0
    ensures VisitOrder(nx, ny)[|VisitOrder(nx, ny)| - 1] == (nx - 1, ny - 1)
  {
    VisitOrderAt(nx, ny, nx - 1, ny - 1);
    LastCell(nx, ny);
  }

  /** `int(shape / patchDim)`: how many whole patches fit along one axis. */
  function PatchCount(n: nat, p: nat): nat
    requires p > 0
  {
    n / p
  }

  /** `cropped[(0 + x*p):(p + x*p), (0 + y*p):(p + y*p), :]`. */
  function Patch<T>(cropped: seq<seq<seq<T>>>, p: nat, x: nat, y: nat): seq<seq<seq<T>>> {
    Slice2(cropped, 0 + x * p, p + x * p, 0 + y * p, p + y * p)
  }

  /** The cube cut down to whole patches by center_crop_hsi. */
  function PatchArea<T>(hsi: seq<seq<seq<T>>>, p: nat): seq<seq<seq<T>>>
    requires p > 0
  {
    CenterCrop(hsi, Some(PatchCount(Height(hsi), p) * p), Some(PatchCount(Width(hsi), p) * p))
  }

  lemma WholePatches(n: nat, p: nat, x: nat)
    requires p > 0 && x < PatchCount(n, p)
    ensures x * p + p <= PatchCount(n, p) * p <= n
  {
    assert (x + 1) * p <= PatchCount(n, p) * p;
  }

  lemma WholeArea(n: nat, p: nat)
    requires p > 0
    ensures PatchCount(n, p) * p <= n
  {
  }

  /** The crop has floor(H/p)*p rows of floor(W/p)*p pixels. */
  lemma PatchAreaShape<T>(hsi: seq<seq<seq<T>>>, p: nat)
    requires Rectangular(hsi) && p > 0
    ensures |PatchArea(hsi, p)| == PatchCount(Height(hsi), p) * p
    ensures forall i :: 0 <= i < |PatchArea(hsi, p)| ==> |PatchArea(hsi, p)[i]| == PatchCount(Width(hsi), p) * p
  {
    var sh, sw := PatchCount(Height(hsi), p), PatchCount(Width(hsi), p);
    WholeArea(Height(hsi), p);
    WholeArea(Width(hsi), p);
    CenterCropShape(hsi, sh * p, sw * p);
  }

  /** A patch of an array with room for it is the p × p block whose corner
      is (top, left) = (x*p, y*p). */
  lemma PatchOfWindow<T>(cropped: seq<seq<seq<T>>>, p: nat, x: nat, y: nat, top: nat, left: nat)
    requires top == x * p && left == y * p
    requires top + p <= |cropped|
    requires forall i :: 0 <= i < |cropped| ==> left + p <= |cropped[i]|
    ensures |Patch(cropped, p, x, y)| == p
    ensures forall i :: 0 <= i < p ==> |Patch(cropped, p, x, y)[i]| == p
    ensures forall i, j :: 0 <= i < p && 0 <= j < p ==> Patch(cropped, p, x, y)[i][j] == cropped[top + i][left + j]
  {
    assert Patch(cropped, p, x, y) == Slice2(cropped, top, top + p, left, left + p);
    WindowAt(cropped, p, top, left);
  }

  lemma WindowAt<T>(cropped: seq<seq<seq<T>>>, p: nat, top: nat, left: nat)
    requires top + p <= |cropped|
    requires forall i :: 0 <= i < |cropped| ==> left + p <= |cropped[i]|
    ensures var r := Slice2(cropped, top, top + p, left, left + p);
      && |r| == p
      && (forall i :: 0 <= i < p ==> |r[i]| == p)
      && (forall i, j :: 0 <= i < p && 0 <= j < p ==> r[i][j] == cropped[top + i][left + j])
  {
    Slice2Window(cropped, top, top + p, left, left + p);
  }

  /** Every patch position of the grid has room in the cropped cube, so
      (by PatchOfWindow) each patch is a full p × p block of it. */
  lemma PatchFits<T>(hsi: seq<seq<seq<T>>>, p: nat, x: nat, y: nat)
    requires Rectangular(hsi) && p > 0
    requires x < PatchCount(Height(hsi), p) && y < PatchCount(Width(hsi), p)
    ensures var cropped := PatchArea(hsi, p);
      && x * p + p <= |cropped|
      && (forall i :: 0 <= i < |cropped| ==> y * p + p <= |cropped[i]|)
  {
    WholePatches(Height(hsi), p, x);
    WholePatches(Width(hsi), p, y);
    PatchAreaShape(hsi, p);
  }

  /** The loop of patch_split_hsi: for each grid position in turn, the patch
      at that position is stored at index `++i`, which is Python's unary plus
      applied twice to i = 0, not an increment, so always at index 0. */
  method StorePatches<T>(patchList: array<seq<seq<seq<T>>>>, cropped: seq<seq<seq<T>>>, p: nat, order: seq<(nat, nat)>)
    requires patchList.Length == |order|
    modifies patchList
    ensures |order| > 0 ==> patchList[0] == Patch(cropped, p, order[|order| - 1].0, order[|order| - 1].1)
    ensures forall k :: 1 <= k < patchList.Length ==> patchList[k] == old(patchList[k])
  {
    var i := 0;
    var t := 0;
    while t < |order|
      invariant 0 <= t <= |order|
      invariant i == 0
      invariant t > 0 ==> patchList[0] == Patch(cropped, p, order[t - 1].0, order[t - 1].1)
      invariant forall k :: 1 <= k < patchList.Length ==> patchList[k] == old(patchList[k])
    {
      var pos := order[t];
      patchList[i] := Patch(cropped, p, pos.0, pos.1);  // `patchList[++i]`
      t := t + 1;
      assert order[t - 1] == pos;
    }
  }

  /** patch_split_hsi (default patch size 25). The patch array has
      floor(H/p)*floor(W/p) slots meant for the p × p × B patches in grid
      order, but every patch lands in slot 0, which ends up holding the last
      patch visited, and the other slots keep np.empty's contents, given here
      as `unset`. */
  method PatchSplitHsi<T>(hsi: seq<seq<seq<T>>>, patchDim: nat, unset: seq<seq<seq<T>>>)
    returns (patchList: array<seq<seq<seq<T>>>>, ghost cropped: seq<seq<seq<T>>>, ghost visited: seq<(nat, nat)>)
    requires IsCube(hsi) && patchDim > 0
    ensures fresh(patchList)
    ensures cropped == PatchArea(hsi, patchDim)
    ensures visited == VisitOrder(PatchCount(Height(hsi), patchDim), PatchCount(Width(hsi), patchDim))
    ensures patchList.Length == |visited| == PatchCount(Height(hsi), patchDim) * PatchCount(Width(hsi), patchDim)
    ensures PatchCount(Height(hsi), patchDim) > 0 && PatchCount(Width(hsi), patchDim) > 0 ==>
      patchList[0] == Patch(cropped, patchDim, PatchCount(Height(hsi), patchDim) - 1, PatchCount(Width(hsi), patchDim) - 1)
    ensures forall k :: 1 <= k < patchList.Length ==> patchList[k] == unset
  {
    var st0, st1 := PatchCount(Height(hsi), patchDim), PatchCount(Width(hsi), patchDim);
    var area := PatchArea(hsi, patchDim);
    patchList := FillPatches(area, patchDim, st0, st1, unset);
    cropped, visited := area, VisitOrder(st0, st1);
  }

  /** The patch array of an st0 × st1 grid after the loop: slot 0 holds the
      patch at the last grid position, every other slot keeps `unset`. */
  method FillPatches<T>(area: seq<seq<seq<T>>>, p: nat, st0: nat, st1: nat, unset: seq<seq<seq<T>>>)
    returns (patchList: array<seq<seq<seq<T>>>>)
    ensures fresh(patchList)
    ensures patchList.Length == st0 * st1
    ensures st0 > 0 && st1 > 0 ==> patchList[0] == Patch(area, p, st0 - 1, st1 - 1)
    ensures forall k :: 1 <= k < patchList.Length ==> patchList[k] == unset
  {
    var order := VisitOrder(st0, st1);
    if st0 > 0 && st1 > 0 {
      VisitOrderLast(st0, st1);
    }
    patchList := new seq<seq<seq<T>>>[|order|](_ => unset);
    assert forall k :: 0 <= k < patchList.Length ==> patchList[k] == unset;
    StorePatches(patchList, area, p, order);
  }
}
