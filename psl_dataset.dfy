/** The tensorflow-datasets builder of the PSL normalized dataset, in its two
    copies (medHSIpy and medHSI-python). The generator loads the hyperspectral
    cubes, keeps six of them in a fixed order, crops them and the manual label
    masks to 70×70, and yields the examples whose position lies in the
    split's inclusive index range, keyed by a fixed table of sample numbers.
    Reading the HDF5 file and the mask images is outside the model: their
    contents are parameters. */
module PslDataset {
  import opened Wrappers
  import opened Text
  import opened NdArray
  import HsiIo
  import LegacyHsiIo

  /** The sample numbers of the six kept cubes, in yield order. */
  const SampleIds: seq<nat> := [153, 172, 166, 169, 178, 184]

  /** The positions of the kept cubes in the loaded list (medHSIpy copy). */
  const KeepInd: seq<nat> := [1, 7, 5, 6, 9, 11]

  /** The same positions in the order of the medHSI-python copy. */
  const LegacyKeepInd: seq<nat> := [1, 5, 6, 7, 9, 11]

  /** Both crops use 70×70, the shape the dataset declares for 'hsi' and 'tumor'. */
  const CropSize := 70

  /** No key is listed twice. */
  ghost predicate Distinct(ids: seq<nat>) {
    forall a, b :: 0 <= a < b < |ids| ==> ids[a] != ids[b]
  }

  lemma SampleIdsDistinct()
    ensures Distinct(SampleIds)
  {
  }

  // ---------------------------------------------------------------------------
  // Re-selection of the loaded cubes

  /** `[dataList[i] for i in keepInd]`, the positions taken in the listed
      order; the first position past the end of the list raises IndexError. */
  function Reselect<X>(dataList: seq<X>, keepInd: seq<nat>): Result<seq<X>>
    decreases |keepInd|
  {
    if |keepInd| == 0 then Ok([])
    else if keepInd[0] >= |dataList| then Err(IndexError)
    else
      match Reselect(dataList, keepInd[1..])
      case Err(e) => Err(e)
      case Ok(rest) => Ok([dataList[keepInd[0]]] + rest)
  }

  /** The re-selection succeeds exactly when every listed position exists,
      and then holds, at each place k, the element at position keepInd[k];
      otherwise it is IndexError. */
  lemma {:induction false} ReselectMeaning<X>(dataList: seq<X>, keepInd: seq<nat>)
    ensures var r := Reselect(dataList, keepInd);
      && (r.Ok? <==> forall k :: 0 <= k < |keepInd| ==> keepInd[k] < |dataList|)
      && (r.Err? ==> r.error == IndexError)
      && (r.Ok? ==> |r.value| == |keepInd|)
      && (r.Ok? ==> forall k :: 0 <= k < |keepInd| ==> r.value[k] == dataList[keepInd[k]])
    decreases |keepInd|
  {
    if |keepInd| > 0 {
      ReselectMeaning(dataList, keepInd[1..]);
      var r := Reselect(dataList, keepInd);
      if keepInd[0] < |dataList| && Reselect(dataList, keepInd[1..]).Ok? {
        forall k | 0 <= k < |keepInd|
          ensures r.value[k] == dataList[keepInd[k]]
        {
          if k > 0 {
            assert keepInd[k] == keepInd[1..][k - 1];
          }
        }
      }
      if !(forall k :: 0 <= k < |keepInd| ==> keepInd[k] < |dataList|) {
        var k :| 0 <= k < |keepInd| && keepInd[k] >= |dataList|;
        if k > 0 {
          assert keepInd[1..][k - 1] == keepInd[k];
        }
      }
    }
  }

  /** Position 11 is the largest that either copy keeps. */
  lemma KeptPositionsBelowTwelve()
    ensures forall k :: 0 <= k < |KeepInd| ==> KeepInd[k] < 12
    ensures forall k :: 0 <= k < |LegacyKeepInd| ==> LegacyKeepInd[k] < 12
    ensures KeepInd[5] == 11 && LegacyKeepInd[5] == 11
  {
  }

  /** Both copies need at least twelve loaded cubes; with fewer, the
      re-selection raises IndexError. */
  lemma ReselectNeedsTwelve<X>(dataList: seq<X>)
    ensures Reselect(dataList, KeepInd).Ok? <==> |dataList| >= 12
    ensures Reselect(dataList, LegacyKeepInd).Ok? <==> |dataList| >= 12
    ensures Reselect(dataList, KeepInd).Err? ==> Reselect(dataList, KeepInd).error == IndexError
    ensures Reselect(dataList, LegacyKeepInd).Err? ==> Reselect(dataList, LegacyKeepInd).error == IndexError
    ensures Reselect(dataList, KeepInd).Ok? ==> |Reselect(dataList, KeepInd).value| == |SampleIds|
    ensures Reselect(dataList, LegacyKeepInd).Ok? ==> |Reselect(dataList, LegacyKeepInd).value| == |SampleIds|
  {
    ReselectMeaning(dataList, KeepInd);
    ReselectMeaning(dataList, LegacyKeepInd);
    KeptPositionsBelowTwelve();
  }

  /** The two copies keep the same cubes in a different order, so they pair
      them with the sample numbers differently: sample 172 gets cube 7 in one
      and cube 5 in the other. */
  lemma VariantsPairDifferently<X>(dataList: seq<X>)
    requires |dataList| >= 12
    ensures Reselect(dataList, KeepInd).Ok? && Reselect(dataList, LegacyKeepInd).Ok?
    ensures var a, b := Reselect(dataList, KeepInd).value, Reselect(dataList, LegacyKeepInd).value;
      && |a| == |b| == 6
      && a[0] == b[0] && a[1] == b[3] && a[2] == b[1] && a[3] == b[2] && a[4] == b[4] && a[5] == b[5]
    ensures SampleIds[1] == 172
    ensures Reselect(dataList, KeepInd).value[1] == dataList[7]
    ensures Reselect(dataList, LegacyKeepInd).value[1] == dataList[5]
  {
    ReselectNeedsTwelve(dataList);
    ReselectMeaning(dataList, KeepInd);
    ReselectMeaning(dataList, LegacyKeepInd);
  }

  // ---------------------------------------------------------------------------
  // Label masks

  /** The label image of every mask: load_label_images' transpose, then
      get_labels_from_mask's threshold. `np.transpose(img, [1, 0, 2])` swaps
      the first two axes of an H×W mask of pixels, which is NdArray's
      Transpose with the pixel as the element. */
  function LabelImages<P>(labelRgb: seq<seq<seq<P>>>, grey: P -> int): (r: seq<seq<seq<int>>>)
    requires forall k :: 0 <= k < |labelRgb| ==> Rectangular(labelRgb[k])
  {
    seq(|labelRgb|, k requires 0 <= k < |labelRgb| => HsiIo.LabelImage(Transpose(labelRgb[k]), grey))
  }

  /** center_crop_list of the label images at its default 70×70. */
  function LabelCrops(labelImages: seq<seq<seq<int>>>): seq<HsiIo.NdImage<int>> {
    seq(|labelImages|, k requires 0 <= k < |labelImages| =>
      HsiIo.CenterCropHsi(HsiIo.Plane(labelImages[k]), Some(CropSize), Some(CropSize)))
  }

  /** center_crop_list of the kept cubes at 70×70. */
  function DataCrops<T>(selected: seq<seq<seq<seq<T>>>>): seq<HsiIo.NdImage<T>> {
    seq(|selected|, k requires 0 <= k < |selected| =>
      HsiIo.CenterCropHsi(HsiIo.Volume(selected[k]), Some(CropSize), Some(CropSize)))
  }

  // ---------------------------------------------------------------------------
  // The examples of a split

  /** What the generator yields: the key and the feature dictionary. */
  datatype Example<T> = Example(key: nat, id: string, hsi: HsiIo.NdImage<T>, tumor: HsiIo.NdImage<int>)

  /** The 'id' feature: "sample" followed by the decimal key. */
  function SampleName(key: nat): string {
    "sample" + NatToString(key)
  }

  /** Different keys give different ids. */
  lemma SampleNameInjective(a: nat, b: nat)
    requires SampleName(a) == SampleName(b)
    ensures a == b
  {
    assert SampleName(a)[6..] == NatToString(a);
    assert SampleName(b)[6..] == NatToString(b);
    NatToStringInjective(a, b);
  }

  /** The example made from position `i` of the zipped lists. */
  function ExampleAt<T>(ids: seq<nat>, hsis: seq<HsiIo.NdImage<T>>, labels: seq<HsiIo.NdImage<int>>, i: nat): Example<T>
    requires i < |hsis| && i < |labels| && i < |ids|
  {
    Example(ids[i], SampleName(ids[i]), hsis[i], labels[i])
  }

  /** How many positions `zip` pairs: the length of the shorter list. */
  function ZipLength(a: nat, b: nat): (n: nat)
    ensures n <= a && n <= b && (n == a || n == b)
  {
    if a <= b then a else b
  }

  /** The examples yielded over the first `n` zipped positions, each
      position kept when `startIdx <= i <= endIdx`. */
  function Yielded<T>(ids: seq<nat>, hsis: seq<HsiIo.NdImage<T>>, labels: seq<HsiIo.NdImage<int>>,
                      startIdx: int, endIdx: int, n: nat): seq<Example<T>>
    requires n <= |hsis| && n <= |labels| && n <= |ids|
    decreases n
  {
    if n == 0 then []
    else Yielded(ids, hsis, labels, startIdx, endIdx, n - 1)
         + (if startIdx <= n - 1 <= endIdx then [ExampleAt(ids, hsis, labels, n - 1)] else [])
  }

  /** The first position of the range that exists. */
  function RangeStart(startIdx: int): nat {
    if startIdx < 0 then 0 else startIdx
  }

  /** How many of the positions 0 .. n-1 lie in [startIdx, endIdx]. */
  function RangeCount(startIdx: int, endIdx: int, n: nat): nat {
    var hi := if endIdx + 1 < n then endIdx + 1 else n;
    if RangeStart(startIdx) < hi then hi - RangeStart(startIdx) else 0
  }

  /** The generator yields one example per position of the inclusive range
      that the zip reaches, in increasing position order, and nothing else. */
  lemma {:induction false} YieldedIsRange<T>(ids: seq<nat>, hsis: seq<HsiIo.NdImage<T>>, labels: seq<HsiIo.NdImage<int>>,
                                              startIdx: int, endIdx: int, n: nat)
    requires n <= |hsis| && n <= |labels| && n <= |ids|
    ensures |Yielded(ids, hsis, labels, startIdx, endIdx, n)| == RangeCount(startIdx, endIdx, n)
    ensures forall k :: 0 <= k < RangeCount(startIdx, endIdx, n) ==>
      && RangeStart(startIdx) + k < n
      && startIdx <= RangeStart(startIdx) + k <= endIdx
      && Yielded(ids, hsis, labels, startIdx, endIdx, n)[k] == ExampleAt(ids, hsis, labels, RangeStart(startIdx) + k)
    decreases n
  {
    if n > 0 {
      var prev, r := Yielded(ids, hsis, labels, startIdx, endIdx, n - 1), Yielded(ids, hsis, labels, startIdx, endIdx, n);
      YieldedIsRange(ids, hsis, labels, startIdx, endIdx, n - 1);
      RangeCountStep(startIdx, endIdx, n);
      var lo, c := RangeStart(startIdx), RangeCount(startIdx, endIdx, n - 1);
      if startIdx <= n - 1 <= endIdx {
        assert r == prev + [ExampleAt(ids, hsis, labels, n - 1)];
        forall k | 0 <= k < c + 1
          ensures lo + k < n && startIdx <= lo + k <= endIdx && r[k] == ExampleAt(ids, hsis, labels, lo + k)
        {
          if k < c {
            assert r[k] == prev[k];
          }
        }
      } else {
        assert r == prev;
      }
    }
  }

  /** Counting one more position adds one to the count exactly when the
      position is in the range, and it then follows the positions counted
      before it. */
  lemma RangeCountStep(startIdx: int, endIdx: int, n: nat)
    requires n > 0
    ensures startIdx <= n - 1 <= endIdx ==>
      && RangeCount(startIdx, endIdx, n) == RangeCount(startIdx, endIdx, n - 1) + 1
      && RangeStart(startIdx) + RangeCount(startIdx, endIdx, n - 1) == n - 1
    ensures !(startIdx <= n - 1 <= endIdx) ==> RangeCount(startIdx, endIdx, n) == RangeCount(startIdx, endIdx, n - 1)
  {
  }

  /** Position `i` is yielded exactly when it lies in the range. */
  lemma YieldedExactlyInRange<T>(ids: seq<nat>, hsis: seq<HsiIo.NdImage<T>>, labels: seq<HsiIo.NdImage<int>>,
                                 startIdx: int, endIdx: int, n: nat)
    requires Distinct(ids)
    requires n <= |hsis| && n <= |labels| && n <= |ids|
    ensures forall i :: 0 <= i < n ==>
      (ExampleAt(ids, hsis, labels, i) in Yielded(ids, hsis, labels, startIdx, endIdx, n) <==> startIdx <= i <= endIdx)
  {
    forall i | 0 <= i < n
      ensures ExampleAt(ids, hsis, labels, i) in Yielded(ids, hsis, labels, startIdx, endIdx, n) <==> startIdx <= i <= endIdx
    {
      YieldedAt(ids, hsis, labels, startIdx, endIdx, n, i);
    }
  }

  lemma YieldedAt<T>(ids: seq<nat>, hsis: seq<HsiIo.NdImage<T>>, labels: seq<HsiIo.NdImage<int>>,
                     startIdx: int, endIdx: int, n: nat, i: nat)
    requires Distinct(ids)
    requires n <= |hsis| && n <= |labels| && n <= |ids| && i < n
    ensures ExampleAt(ids, hsis, labels, i) in Yielded(ids, hsis, labels, startIdx, endIdx, n) <==> startIdx <= i <= endIdx
  {
    if startIdx <= i <= endIdx {
      YieldedIsRange(ids, hsis, labels, startIdx, endIdx, n);
      var k := i - RangeStart(startIdx);
      assert Yielded(ids, hsis, labels, startIdx, endIdx, n)[k] == ExampleAt(ids, hsis, labels, i);
    } else if ExampleAt(ids, hsis, labels, i) in Yielded(ids, hsis, labels, startIdx, endIdx, n) {
      YieldedOnlyInRange(ids, hsis, labels, startIdx, endIdx, n, i);
    }
  }

  /** A yielded example carries the key of a position in the range, and keys
      name positions. */
  lemma YieldedOnlyInRange<T>(ids: seq<nat>, hsis: seq<HsiIo.NdImage<T>>, labels: seq<HsiIo.NdImage<int>>,
                              startIdx: int, endIdx: int, n: nat, i: nat)
    requires Distinct(ids)
    requires n <= |hsis| && n <= |labels| && n <= |ids| && i < n
    requires ExampleAt(ids, hsis, labels, i) in Yielded(ids, hsis, labels, startIdx, endIdx, n)
    ensures startIdx <= i <= endIdx
  {
    var r := Yielded(ids, hsis, labels, startIdx, endIdx, n);
    var k :| 0 <= k < |r| && r[k] == ExampleAt(ids, hsis, labels, i);
    YieldedIsRange(ids, hsis, labels, startIdx, endIdx, n);
    var j := RangeStart(startIdx) + k;
    assert r[k].key == ids[j] && r[k].key == ids[i];
    assert i == j;
  }

  /** Every yielded example is the example of a position in the range. */
  lemma YieldedMembers<T>(ids: seq<nat>, hsis: seq<HsiIo.NdImage<T>>, labels: seq<HsiIo.NdImage<int>>,
                          startIdx: int, endIdx: int, n: nat)
    requires n <= |hsis| && n <= |labels| && n <= |ids|
    ensures forall ex :: ex in Yielded(ids, hsis, labels, startIdx, endIdx, n) ==>
      exists i :: 0 <= i < n && startIdx <= i <= endIdx && ex == ExampleAt(ids, hsis, labels, i)
  {
    var r := Yielded(ids, hsis, labels, startIdx, endIdx, n);
    YieldedIsRange(ids, hsis, labels, startIdx, endIdx, n);
    forall ex | ex in r
      ensures exists i :: 0 <= i < n && startIdx <= i <= endIdx && ex == ExampleAt(ids, hsis, labels, i)
    {
      var k :| 0 <= k < |r| && r[k] == ex;
      var i := RangeStart(startIdx) + k;
      assert ex == ExampleAt(ids, hsis, labels, i);
    }
  }

  /** The keys, and so the ids, of the yielded examples are pairwise distinct. */
  lemma YieldedKeysDistinct<T>(ids: seq<nat>, hsis: seq<HsiIo.NdImage<T>>, labels: seq<HsiIo.NdImage<int>>,
                               startIdx: int, endIdx: int, n: nat)
    requires Distinct(ids)
    requires n <= |hsis| && n <= |labels| && n <= |ids|
    ensures var r := Yielded(ids, hsis, labels, startIdx, endIdx, n);
      forall k1, k2 :: 0 <= k1 < k2 < |r| ==> r[k1].key != r[k2].key && r[k1].id != r[k2].id
  {
    var r := Yielded(ids, hsis, labels, startIdx, endIdx, n);
    YieldedIsRange(ids, hsis, labels, startIdx, endIdx, n);
    forall k1, k2 | 0 <= k1 < k2 < |r|
      ensures r[k1].key != r[k2].key && r[k1].id != r[k2].id
    {
      var i1, i2 := RangeStart(startIdx) + k1, RangeStart(startIdx) + k2;
      assert r[k1].key == ids[i1] && r[k2].key == ids[i2];
      if r[k1].id == r[k2].id {
        SampleNameInjective(r[k1].key, r[k2].key);
      }
    }
  }

  /** The generator loop of _generate_examples over the zipped crops. */
  method YieldExamples<T>(croppedData: seq<HsiIo.NdImage<T>>, croppedLabels: seq<HsiIo.NdImage<int>>,
                          startIdx: int, endIdx: int) returns (examples: seq<Example<T>>)
    requires |croppedData| <= |SampleIds|
    ensures examples == Yielded(SampleIds, croppedData, croppedLabels, startIdx, endIdx, ZipLength(|croppedData|, |croppedLabels|))
  {
    var n := ZipLength(|croppedData|, |croppedLabels|);
    examples := [];
    for i := 0 to n
      invariant examples == Yielded(SampleIds, croppedData, croppedLabels, startIdx, endIdx, i)
    {
      if i >= startIdx && i <= endIdx {
        var key := SampleIds[i];
        examples := examples + [Example(key, SampleName(key), croppedData[i], croppedLabels[i])];
      }
    }
  }

  /** `hsi_io.center_crop_list(dataList, 70, 70, True)` on the kept cubes
      (the montage it then displays is left out). */
  method CropData<T>(selected: seq<seq<seq<seq<T>>>>) returns (croppedData: seq<HsiIo.NdImage<T>>)
    ensures croppedData == DataCrops(selected)
  {
    var volumes := seq(|selected|, k requires 0 <= k < |selected| => HsiIo.Volume(selected[k]));
    croppedData := HsiIo.CenterCropList(volumes, CropSize, CropSize);
  }

  /** `hsi_io.get_labels_from_mask` of `hsi_io.load_label_images`: the masks
      transposed, then thresholded. */
  method MaskLabels<P>(labelRgb: seq<seq<seq<P>>>, grey: P -> int) returns (labelImages: seq<seq<seq<int>>>)
    requires forall k :: 0 <= k < |labelRgb| ==> Rectangular(labelRgb[k])
    ensures labelImages == LabelImages(labelRgb, grey)
  {
    var rotated := seq(|labelRgb|, k requires 0 <= k < |labelRgb| => Transpose(labelRgb[k]));
    labelImages := HsiIo.GetLabelsFromMask(rotated, grey);
  }

  /** `hsi_io.center_crop_list(labelImages)` with its default 70×70. */
  method CropLabels(labelImages: seq<seq<seq<int>>>) returns (croppedLabels: seq<HsiIo.NdImage<int>>)
    ensures croppedLabels == LabelCrops(labelImages)
  {
    var planes := seq(|labelImages|, k requires 0 <= k < |labelImages| => HsiIo.Plane(labelImages[k]));
    croppedLabels := HsiIo.CenterCropList(planes, CropSize, CropSize);
  }

  // ---------------------------------------------------------------------------
  // _generate_examples and _split_generators (medHSIpy copy)

  /** _generate_examples(startIdx, endIdx) over the loaded cubes and the
      loaded mask images: fewer than twelve cubes raise IndexError at the
      re-selection; otherwise the examples of the range are those of the
      cropped kept cubes zipped with the cropped labels. */
  method GenerateExamples<T, P>(dataList: seq<seq<seq<seq<T>>>>, labelRgb: seq<seq<seq<P>>>, grey: P -> int,
                                startIdx: int, endIdx: int) returns (examples: Result<seq<Example<T>>>)
    requires forall k :: 0 <= k < |labelRgb| ==> Rectangular(labelRgb[k])
    ensures examples.Ok? <==> |dataList| >= 12
    ensures examples.Err? ==> examples.error == IndexError
    ensures examples.Ok? ==> Reselect(dataList, KeepInd).Ok?
    ensures examples.Ok? ==> examples.value == Yielded(SampleIds, DataCrops(Reselect(dataList, KeepInd).value),
                                   LabelCrops(LabelImages(labelRgb, grey)),
                                   startIdx, endIdx, ZipLength(|KeepInd|, |labelRgb|))
  {
    ReselectNeedsTwelve(dataList);
    var selected := Reselect(dataList, KeepInd);
    if selected.Err? {
      examples := Err(selected.error);
      return;
    }
    var croppedData := CropData(selected.value);
    var labelImages := MaskLabels(labelRgb, grey);
    var croppedLabels := CropLabels(labelImages);
    var out := YieldExamples(croppedData, croppedLabels, startIdx, endIdx);
    examples := Ok(out);
  }

  /** The two splits and their inclusive index ranges. */
  datatype Split = Split(name: string, startIdx: int, endIdx: int)

  const Splits: seq<Split> := [Split("train", 0, 4), Split("test", 5, 5)]

  /** _split_generators: each split's name with its examples. */
  function SplitGenerators<T>(ids: seq<nat>, hsis: seq<HsiIo.NdImage<T>>, labels: seq<HsiIo.NdImage<int>>, n: nat)
    : (r: seq<(string, seq<Example<T>>)>)
    requires n <= |hsis| && n <= |labels| && n <= |ids|
    ensures |r| == |Splits|
    ensures forall s :: 0 <= s < |r| ==> r[s].0 == Splits[s].name
  {
    seq(|Splits|, s requires 0 <= s < |Splits| =>
      (Splits[s].name, Yielded(ids, hsis, labels, Splits[s].startIdx, Splits[s].endIdx, n)))
  }

  /** The splits partition the zipped positions: positions 0 to 4 go to
      'train', position 5 to 'test', none to both; with all six positions
      present, 'train' has five examples and 'test' one. */
  lemma SplitsPartition<T>(ids: seq<nat>, hsis: seq<HsiIo.NdImage<T>>, labels: seq<HsiIo.NdImage<int>>, n: nat)
    requires Distinct(ids)
    requires n <= |hsis| && n <= |labels| && n <= |ids|
    ensures var r := SplitGenerators(ids, hsis, labels, n);
      && r[0].0 == "train" && r[1].0 == "test"
      && (forall i :: 0 <= i < n ==> (ExampleAt(ids, hsis, labels, i) in r[0].1 <==> i <= 4))
      && (forall i :: 0 <= i < n ==> (ExampleAt(ids, hsis, labels, i) in r[1].1 <==> i == 5))
      && (forall ex :: ex in r[0].1 ==> ex !in r[1].1)
      && (n == |ids| == 6 ==> |r[0].1| == 5 && |r[1].1| == 1)
  {
    var r := SplitGenerators(ids, hsis, labels, n);
    assert r[0].1 == Yielded(ids, hsis, labels, 0, 4, n);
    assert r[1].1 == Yielded(ids, hsis, labels, 5, 5, n);
    YieldedExactlyInRange(ids, hsis, labels, 0, 4, n);
    YieldedExactlyInRange(ids, hsis, labels, 5, 5, n);
    YieldedIsRange(ids, hsis, labels, 0, 4, n);
    YieldedIsRange(ids, hsis, labels, 5, 5, n);
  }

  /** Cubes and masks of at least 70×70 give examples whose 'hsi' and
      'tumor' are exactly 70×70, the declared feature shapes. */
  lemma ExamplesAreCropSize<T, P>(ids: seq<nat>, selected: seq<seq<seq<seq<T>>>>, labelRgb: seq<seq<seq<P>>>, grey: P -> int,
                                  startIdx: int, endIdx: int)
    requires |selected| <= |ids|
    requires forall k :: 0 <= k < |selected| ==>
      IsCube(selected[k]) && Height(selected[k]) >= CropSize && Width(selected[k]) >= CropSize
    requires forall k :: 0 <= k < |labelRgb| ==>
      Rectangular(labelRgb[k]) && Height(labelRgb[k]) >= CropSize && Width(labelRgb[k]) >= CropSize
    ensures forall ex :: ex in Yielded(ids, DataCrops(selected), LabelCrops(LabelImages(labelRgb, grey)),
                                       startIdx, endIdx, ZipLength(|selected|, |labelRgb|)) ==>
      && HsiIo.ImageHeight(ex.hsi) == CropSize && HsiIo.ImageWidth(ex.hsi) == CropSize
      && HsiIo.ImageHeight(ex.tumor) == CropSize && HsiIo.ImageWidth(ex.tumor) == CropSize
  {
    var hsis, labels := DataCrops(selected), LabelCrops(LabelImages(labelRgb, grey));
    var n := ZipLength(|selected|, |labelRgb|);
    forall k | 0 <= k < |selected|
      ensures HsiIo.ImageHeight(hsis[k]) == CropSize && HsiIo.ImageWidth(hsis[k]) == CropSize
    {
      HsiIo.CenterCropListSwapped(HsiIo.Volume(selected[k]), CropSize, CropSize);
    }
    forall k | 0 <= k < |labelRgb|
      ensures HsiIo.ImageHeight(labels[k]) == CropSize && HsiIo.ImageWidth(labels[k]) == CropSize
    {
      var g := LabelImages(labelRgb, grey)[k];
      var t := Transpose(labelRgb[k]);
      assert g == HsiIo.LabelImage(t, grey);
      assert Height(g) == Width(labelRgb[k]) && Width(g) == Height(labelRgb[k]);
      assert HsiIo.IsArray(HsiIo.Plane(g));
      HsiIo.CenterCropListSwapped(HsiIo.Plane(g), CropSize, CropSize);
    }
    YieldedMembers(ids, hsis, labels, startIdx, endIdx, n);
  }

  // ---------------------------------------------------------------------------
  // _generate_examples (medHSI-python copy)

  /** As written, the medHSI-python generator asks its hsi_io module for
      load_images and get_labels_from_mask, which that module does not
      define: after the re-selection (IndexError for fewer than twelve
      cubes) and the crop of the data, it ends with AttributeError and yields
      nothing. */
  method GenerateExamplesAsWritten<T>(dataList: seq<seq<seq<seq<T>>>>, startIdx: int, endIdx: int)
    returns (examples: Result<seq<Example<T>>>)
    requires forall k :: 0 <= k < |dataList| ==> IsCube(dataList[k])
    ensures examples.Err?
    ensures examples.error == (if |dataList| >= 12 then AttributeError else IndexError)
  {
    ReselectNeedsTwelve(dataList);
    var selected := Reselect(dataList, LegacyKeepInd);
    if selected.Err? {
      examples := Err(selected.error);
      return;
    }
    var croppedData := LegacyHsiIo.CenterCropList(selected.value, CropSize, CropSize);
    examples := Err(AttributeError);
  }

  /** center_crop_list of the older module at 70×70, as 3-D arrays. */
  function LegacyDataCrops<T>(selected: seq<seq<seq<seq<T>>>>): seq<HsiIo.NdImage<T>>
    requires forall k :: 0 <= k < |selected| ==> IsCube(selected[k])
  {
    seq(|selected|, k requires 0 <= k < |selected| =>
      HsiIo.Volume(LegacyHsiIo.CenterCropHsi(selected[k], Some(CropSize), Some(CropSize))))
  }

  /** `io.center_crop_list(dataList, 70, 70, True)` of the older module on
      the kept cubes (the montage it then displays is left out). */
  method CropLegacyData<T>(selected: seq<seq<seq<seq<T>>>>) returns (croppedData: seq<HsiIo.NdImage<T>>)
    requires forall k :: 0 <= k < |selected| ==> IsCube(selected[k])
    ensures croppedData == LegacyDataCrops(selected)
  {
    var cubes := LegacyHsiIo.CenterCropList(selected, CropSize, CropSize);
    croppedData := seq(|cubes|, k requires 0 <= k < |cubes| => HsiIo.Volume(cubes[k]));
  }

  /** The medHSI-python generator as evidently intended: the label images
      (what the missing loader and get_labels_from_mask would produce) are an
      input, cropped at 70×70 as 2-D arrays; the kept cubes follow that copy's
      order. */
  method GenerateExamplesLegacy<T>(dataList: seq<seq<seq<seq<T>>>>, labelImages: seq<seq<seq<int>>>,
                                   startIdx: int, endIdx: int) returns (examples: Result<seq<Example<T>>>)
    requires forall k :: 0 <= k < |dataList| ==> IsCube(dataList[k])
    ensures examples.Ok? <==> |dataList| >= 12
    ensures examples.Err? ==> examples.error == IndexError
    ensures examples.Ok? ==> Reselect(dataList, LegacyKeepInd).Ok?
    ensures examples.Ok? ==> forall k :: 0 <= k < |LegacyKeepInd| ==> IsCube(Reselect(dataList, LegacyKeepInd).value[k])
    ensures examples.Ok? ==> examples.value == Yielded(SampleIds, LegacyDataCrops(Reselect(dataList, LegacyKeepInd).value), LabelCrops(labelImages),
                                   startIdx, endIdx, ZipLength(|LegacyKeepInd|, |labelImages|))
  {
    ReselectNeedsTwelve(dataList);
    var selected := Reselect(dataList, LegacyKeepInd);
    if selected.Err? {
      examples := Err(selected.error);
      return;
    }
    var croppedData := CropLegacyData(selected.value);
    var croppedLabels := CropLabels(labelImages);
    var out := YieldExamples(croppedData, croppedLabels, startIdx, endIdx);
    examples := Ok(out);
  }
}
