/** xception_models: the choice of a 3-D Xception builder and a batch size
    from a framework name, the mean/max wrappers around the builders, and the
    layer names get_xception3d_1 generates with its block counter. The Keras
    layer graph itself is outside the model. */
module Xception {
  import opened Wrappers
  import opened Text
  import opened TrainUtils

  // ---------------------------------------------------------------------------
  // Builders and their wrappers

  /** What a builder does with the spectral axis in the middle of the network:
      'mean' is checked before 'max', and a string with neither keeps the axis. */
  datatype Drop = MeanDrop | MaxDrop | NoDrop

  function DropSpectral(dropMiddle: string): (d: Drop)
    ensures d == MeanDrop <==> Contains(dropMiddle, "mean")
    ensures d == MaxDrop <==> !Contains(dropMiddle, "mean") && Contains(dropMiddle, "max")
  {
    if Contains(dropMiddle, "mean") then MeanDrop
    else if Contains(dropMiddle, "max") then MaxDrop
    else NoDrop
  }

  /** A call get_xception3d_<variant>(dropMiddle, width, height, numChannels,
      numClasses), recorded by the builder's own parameter names. */
  datatype BuilderCall = BuilderCall(variant: nat, dropMiddle: string, width: int, height: int,
                                     numChannels: int, numClasses: int)

  /** get_xception3d<variant>_<pool>(height, width, ...): the wrapper passes
      its pool name and hands its arguments on in their own order, so the
      builder's `width` receives the caller's height. */
  function Wrapper(variant: nat, pool: string, height: int, width: int, numChannels: int, numClasses: int): (c: BuilderCall)
    requires pool == "mean" || pool == "max"
    ensures c.variant == variant && c.numChannels == numChannels && c.numClasses == numClasses
    ensures c.width == height && c.height == width
    ensures pool == "mean" ==> DropSpectral(c.dropMiddle) == MeanDrop
    ensures pool == "max" ==> DropSpectral(c.dropMiddle) == MaxDrop
  {
    MeanMaxSelf();
    BuilderCall(variant, pool, height, width, numChannels, numClasses)
  }

  lemma MeanMaxSelf()
    ensures Contains("mean", "mean") && Contains("max", "max") && !Contains("max", "mean")
  {
    SelfContains("mean");
    SelfContains("max");
    NotContainsLonger("max", "mean");
  }

  /** The pattern a name must contain for a wrapper to be chosen. */
  function XceptionPattern(variant: nat, pool: string): string {
    "xception3d" + (if variant == 1 then "" else NatToString(variant)) + "_" + pool
  }

  // ---------------------------------------------------------------------------
  // get_xception_model

  /** A branch of the dispatch: the builder variant, its pooling and the batch
      size the branch forces (None when it keeps the caller's). */
  datatype Branch = Branch(variant: nat, pool: string, batchSize: Option<int>)

  /** The tests of get_xception_model, in the order they are made. */
  const XceptionRules: seq<Rule<Branch>> := [
    Rule("xception3d_max", Branch(1, "max", Some(4))),
    Rule("xception3d_mean", Branch(1, "mean", Some(4))),
    Rule("xception3d2_max", Branch(2, "max", Some(32))),
    Rule("xception3d2_mean", Branch(2, "mean", Some(32))),
    Rule("xception3d3_max", Branch(3, "max", None)),
    Rule("xception3d3_mean", Branch(3, "mean", None)),
    Rule("xception3d4_max", Branch(4, "max", Some(16))),
    Rule("xception3d4_mean", Branch(4, "mean", Some(16))),
    Rule("xception3d5_max", Branch(5, "max", Some(16))),
    Rule("xception3d5_mean", Branch(5, "mean", Some(16)))
  ]

  const DefaultEpochs := 200
  const DefaultBatchSize := 8
  const DefaultOptimizer := "RMSProp"
  const DefaultLearningRate: real := 0.00001
  const DefaultDecay: real := 0.0
  const DefaultLoss := "BCE+JC"

  /** The batch size a branch of the given builder forces: 4 for the first,
      32 for the second, none for the third, 16 for the fourth and fifth. */
  function ForcedBatch(variant: nat): Option<int> {
    if variant == 1 then Some(4) else if variant == 2 then Some(32)
    else if variant == 3 then None else Some(16)
  }

  /** Each rule's pattern spells out its builder and pooling, every rule names
      one of the five builders with 'mean' or 'max', and the batch size it
      forces depends on the builder alone. */
  lemma RuleSpelling(j: nat)
    requires j < |XceptionRules|
    ensures var b := XceptionRules[j].choice;
      && XceptionRules[j].pattern == XceptionPattern(b.variant, b.pool)
      && 1 <= b.variant <= 5 && (b.pool == "mean" || b.pool == "max")
      && b.batchSize == ForcedBatch(b.variant)
  {
    assert NatToString(2) == "2" && NatToString(3) == "3" && NatToString(4) == "4" && NatToString(5) == "5";
    if j < 2 {
    } else if j < 4 {
    } else if j < 6 {
    } else if j < 8 {
    } else {
    }
  }

  /** No two tests of the chain look for the same pattern. */
  lemma RulePatternsDistinct()
    ensures forall i, j :: 0 <= i < j < |XceptionRules| ==> XceptionRules[i].pattern != XceptionRules[j].pattern
  {
    forall i, j | 0 <= i < j < |XceptionRules|
      ensures XceptionRules[i].pattern != XceptionRules[j].pattern
    {
      var a, b := XceptionRules[i].pattern, XceptionRules[j].pattern;
      if |a| == |b| {
        if i < 2 {
          assert a[11] != b[11];
        } else {
          assert a[12] != b[12] || a[10] != b[10];
        }
      }
    }
  }

  /** What get_xception_model sets up before training: the builder call, the
      compiled optimizer and loss, and the arguments of fit_model. */
  datatype Training<X, Y> = Training(call: BuilderCall, compiled: Compiled, epochs: int, batchSize: int,
                                     xTrain: X, yTrain: Y, xTest: X, yTest: Y)

  /** get_xception_model with compile_custom in place of the misspelt call:
      the first rule whose pattern the framework name contains picks the
      wrapper and maybe overrides the batch size; an unmatched name leaves
      `model` unbound, which fails at the compile call. */
  function GetXceptionModel<X, Y>(framework: string, xTrainRaw: X, yTrain: Y, xTestRaw: X, yTest: Y,
                                  height: int, width: int, numChannels: int, numClasses: int,
                                  numEpochs: int, batchSize: int, optimizerName: string,
                                  learningRate: real, decay: real, lossFunction: string): (r: Result<Training<X, Y>>)
    ensures r.Err? <==> FirstMatch(XceptionRules, framework).None?
    ensures r.Err? ==> r.error == UnboundLocalError
    ensures r.Ok? ==> Contains(framework, XceptionPattern(r.value.call.variant, r.value.call.dropMiddle))
    ensures r.Ok? ==> 1 <= r.value.call.variant <= 5 && r.value.call.dropMiddle in {"mean", "max"}
    ensures r.Ok? && r.value.call.variant == 1 ==> r.value.batchSize == 4
    ensures r.Ok? && r.value.call.variant == 2 ==> r.value.batchSize == 32
    ensures r.Ok? && r.value.call.variant == 3 ==> r.value.batchSize == batchSize
    ensures r.Ok? && r.value.call.variant >= 4 ==> r.value.batchSize == 16
    ensures r.Ok? ==> r.value.call.width == height && r.value.call.height == width
    ensures r.Ok? ==> r.value.xTrain == xTrainRaw && r.value.xTest == xTestRaw
                      && r.value.yTrain == yTrain && r.value.yTest == yTest && r.value.epochs == numEpochs
    ensures r.Ok? ==> r.value.compiled == CompileCustom(optimizerName, learningRate, decay, lossFunction)
    ensures r.Ok? ==> forall j ::
      (0 <= j < |XceptionRules| && XceptionRules[j].pattern == XceptionPattern(r.value.call.variant, r.value.call.dropMiddle))
      ==> forall i :: 0 <= i < j ==> !Contains(framework, XceptionRules[i].pattern)
  {
    match FirstMatch(XceptionRules, framework)
    case None => Err(UnboundLocalError)
    case Some(j) =>
      RuleSpelling(j);
      var branch := XceptionRules[j].choice;
      var call := Wrapper(branch.variant, branch.pool, height, width, numChannels, numClasses);
      var batch := branch.batchSize.GetOr(batchSize);
      assert forall i :: 0 <= i < |XceptionRules| && XceptionRules[i].pattern == XceptionRules[j].pattern ==> i == j by {
        RulePatternsDistinct();
      }
      Ok(Training(call, CompileCustom(optimizerName, learningRate, decay, lossFunction), numEpochs, batch,
                  xTrainRaw, yTrain, xTestRaw, yTest))
  }

  /** The chain of get_xception_model is the rule table read in order: the
      first test the name passes picks the builder, its pooling and the batch
      size, and a name that passes none fails. */
  lemma GetXceptionModelFollowsRules<X, Y>(framework: string, xTrainRaw: X, yTrain: Y, xTestRaw: X, yTest: Y,
                                           height: int, width: int, numChannels: int, numClasses: int,
                                           numEpochs: int, batchSize: int, optimizerName: string,
                                           learningRate: real, decay: real, lossFunction: string)
    ensures var r := GetXceptionModel(framework, xTrainRaw, yTrain, xTestRaw, yTest, height, width, numChannels,
                                      numClasses, numEpochs, batchSize, optimizerName, learningRate, decay, lossFunction);
      && (r.Ok? <==> Select(XceptionRules, framework).Some?)
      && (r.Ok? ==> var b := Select(XceptionRules, framework).value;
            r.value.call.variant == b.variant && r.value.call.dropMiddle == b.pool
            && r.value.batchSize == b.batchSize.GetOr(batchSize))
  {
  }

  /** A name that passes the test for get_xception3d_mean is built by the first
      builder at batch 4, whatever later patterns it also contains, such as
      "xception3d_mean,xception3d2_max". */
  lemma MeanOfFirstBuilderWins<X, Y>(framework: string, xTrainRaw: X, yTrain: Y, xTestRaw: X, yTest: Y,
                                     height: int, width: int, numChannels: int, numClasses: int,
                                     numEpochs: int, batchSize: int, optimizerName: string,
                                     learningRate: real, decay: real, lossFunction: string)
    requires Contains(framework, "xception3d_mean")
    ensures var r := GetXceptionModel(framework, xTrainRaw, yTrain, xTestRaw, yTest, height, width, numChannels,
                                      numClasses, numEpochs, batchSize, optimizerName, learningRate, decay, lossFunction);
      r.Ok? && r.value.call.variant == 1 && r.value.batchSize == 4
  {
    assert XceptionRules[1].pattern == "xception3d_mean";
    var m := FirstMatch(XceptionRules, framework);
    assert m.Some? && m.value <= 1;
  }

  /** The line that compiles the model looks up `ompile_custom` in
      train_utils. The callee is evaluated before its arguments, so the lookup
      fails whatever the dispatch did: train_utils defines no such name, and
      every call ends in AttributeError. */
  function GetXceptionModelAsWritten<X, Y>(framework: string, xTrainRaw: X, yTrain: Y, xTestRaw: X, yTest: Y,
                                           height: int, width: int, numChannels: int, numClasses: int,
                                           numEpochs: int, batchSize: int, optimizerName: string,
                                           learningRate: real, decay: real, lossFunction: string): (r: Result<Training<X, Y>>)
    ensures r == Err(AttributeError)
  {
    assert "ompile_custom" !in ModuleNames by {
      assert forall n :: n in ModuleNames ==> |n| > 0 && n[0] != 'o';
    }
    if "ompile_custom" !in ModuleNames then Err(AttributeError)
    else GetXceptionModel(framework, xTrainRaw, yTrain, xTestRaw, yTest, height, width, numChannels,
                          numClasses, numEpochs, batchSize, optimizerName, learningRate, decay, lossFunction)
  }

  /** As written, get_xception_model never reaches training, even for the
      name "xception3d_max" that its first test accepts. */
  lemma AsWrittenAlwaysFails<X, Y>(framework: string, xTrainRaw: X, yTrain: Y, xTestRaw: X, yTest: Y,
                                   height: int, width: int, numChannels: int, numClasses: int,
                                   numEpochs: int, batchSize: int, optimizerName: string,
                                   learningRate: real, decay: real, lossFunction: string)
    ensures GetXceptionModelAsWritten(framework, xTrainRaw, yTrain, xTestRaw, yTest, height, width, numChannels,
              numClasses, numEpochs, batchSize, optimizerName, learningRate, decay, lossFunction) == Err(AttributeError)
    ensures "compile_custom" in ModuleNames && "ompile_custom" !in ModuleNames
  {
    assert forall n :: n in ModuleNames ==> |n| > 0 && n[0] != 'o';
  }

  /** With its default arguments get_xception_model trains for 200 epochs at
      batch 8 unless the branch overrides it, compiling RMSprop at 1e-5 with
      the zero decay passed on, and the BCE+Jaccard loss. */
  lemma XceptionDefaultsCompile()
    ensures CompileCustom(DefaultOptimizer, DefaultLearningRate, DefaultDecay, DefaultLoss)
         == Compiled(Optimizer(RMSprop, 0.00001, Some(0.0)), BceJaccard)
  {
  }

  // ---------------------------------------------------------------------------
  // Layer names of get_xception3d_1

  /** The kinds of numbered layer the builder names, in the order a block
      creates them; 'block' + str(k) + '_pool' is Numbered(Pool, k). */
  datatype Part =
    | Conv1 | Conv1Bn | Conv1Act | Conv2 | Conv2Bn
    | DepthConv1A | DepthConv1B | DepthConv1Bn | Conv2ActMid | DepthConv2A | DepthConv2B | DepthConv2Bn
    | Pool | ResidConv3d | Conv2Act
    | DecAct1 | DecConvTrans1 | DecBn1 | DecAct2 | DecConvTrans2 | DecBn2 | DecUpsampling
    | ResidUpsampling | ResidConv | DecAdd

  function PartPrefix(p: Part): string {
    match p
    case ResidConv3d => "resid"
    case DecAct1 | DecConvTrans1 | DecBn1 | DecAct2 | DecConvTrans2 | DecBn2 | DecUpsampling | DecAdd => "decoder_block"
    case ResidUpsampling | ResidConv => "decoder_residual"
    case _ => "block"
  }

  function PartSuffix(p: Part): string {
    match p
    case Conv1 => "_conv1"
    case Conv1Bn => "_conv1_bn"
    case Conv1Act => "_conv1_act"
    case Conv2 => "_conv2"
    case Conv2Bn => "_conv2_bn"
    case DepthConv1A => "_DepthConv1_a"
    case DepthConv1B => "_DepthConv1_b"
    case DepthConv1Bn => "_DepthConv1_bn"
    case Conv2ActMid => "_conv2_act_mid"
    case DepthConv2A => "_DepthConv2_a"
    case DepthConv2B => "_DepthConv2_b"
    case DepthConv2Bn => "_DepthConv2_bn"
    case Pool => "_pool"
    case ResidConv3d => "_conv3d"
    case Conv2Act => "_conv2_act"
    case DecAct1 => "_act1"
    case DecConvTrans1 => "_convtrans1"
    case DecBn1 => "_bn1"
    case DecAct2 => "_act2"
    case DecConvTrans2 => "_convtrans2"
    case DecBn2 => "_bn2"
    case DecUpsampling => "_upsampling"
    case ResidUpsampling => "_upsampling"
    case ResidConv => "_conv"
    case DecAdd => "add"
  }

  /** The layers named without a counter. */
  datatype PlainPart = Entry | DropAct | DropSpectralDim | DropBn | ResidDropSpectralDim | ExitConv

  function PlainText(p: PlainPart): string {
    match p
    case Entry => "entry"
    case DropAct => "drop_act"
    case DropSpectralDim => "drop_spectral_dim"
    case DropBn => "drop_bn"
    case ResidDropSpectralDim => "resid_drop_spectral_dim"
    case ExitConv => "exit_conv"
  }

  datatype LayerName = Numbered(part: Part, k: nat) | Plain(plain: PlainPart)

  /** The name string the builder writes for a layer. */
  function Render(n: LayerName): string {
    match n
    case Numbered(p, k) => PartPrefix(p) + NatToString(k) + PartSuffix(p)
    case Plain(p) => PlainText(p)
  }

  predicate NoDigit(s: string) {
    forall i :: 0 <= i < |s| ==> !IsDigit(s[i])
  }

  predicate AllDigits(s: string) {
    forall i :: 0 <= i < |s| ==> IsDigit(s[i])
  }

  lemma PartTextShape(p: Part)
    ensures NoDigit(PartPrefix(p)) && |PartSuffix(p)| > 0 && !IsDigit(PartSuffix(p)[0])
  {
    PrefixesHaveNoDigit();
    assert PartSuffix(p)[0] in "_a";
  }

  lemma PrefixesHaveNoDigit()
    ensures NoDigit("block") && NoDigit("resid") && NoDigit("decoder_block") && NoDigit("decoder_residual")
  {
  }

  /** The plain texts carry no digit and are told apart by their text. */
  lemma PlainTextShape(p: PlainPart, q: PlainPart)
    ensures NoDigit(PlainText(p))
    ensures PlainText(p) == PlainText(q) ==> p == q
  {
  }

  /** The part a prefix and suffix spell, if any. */
  function PartOf(prefix: string, suffix: string): Option<Part> {
    if prefix == "resid" then (if suffix == "_conv3d" then Some(ResidConv3d) else None)
    else if prefix == "decoder_residual" then
      if suffix == "_upsampling" then Some(ResidUpsampling) else if suffix == "_conv" then Some(ResidConv) else None
    else if prefix == "decoder_block" then DecoderPartOf(suffix)
    else if prefix == "block" then BlockPartOf(suffix)
    else None
  }

  function DecoderPartOf(suffix: string): Option<Part> {
    if suffix == "_act1" then Some(DecAct1) else if suffix == "_convtrans1" then Some(DecConvTrans1)
    else if suffix == "_bn1" then Some(DecBn1) else if suffix == "_act2" then Some(DecAct2)
    else if suffix == "_convtrans2" then Some(DecConvTrans2) else if suffix == "_bn2" then Some(DecBn2)
    else if suffix == "_upsampling" then Some(DecUpsampling) else if suffix == "add" then Some(DecAdd) else None
  }

  function BlockPartOf(suffix: string): Option<Part> {
    if suffix == "_conv1" then Some(Conv1) else if suffix == "_conv1_bn" then Some(Conv1Bn)
    else if suffix == "_conv1_act" then Some(Conv1Act) else if suffix == "_conv2" then Some(Conv2)
    else if suffix == "_conv2_bn" then Some(Conv2Bn) else if suffix == "_DepthConv1_a" then Some(DepthConv1A)
    else if suffix == "_DepthConv1_b" then Some(DepthConv1B) else if suffix == "_DepthConv1_bn" then Some(DepthConv1Bn)
    else if suffix == "_conv2_act_mid" then Some(Conv2ActMid) else if suffix == "_DepthConv2_a" then Some(DepthConv2A)
    else if suffix == "_DepthConv2_b" then Some(DepthConv2B) else if suffix == "_DepthConv2_bn" then Some(DepthConv2Bn)
    else if suffix == "_pool" then Some(Pool) else if suffix == "_conv2_act" then Some(Conv2Act) else None
  }

  /** Distinct parts are spelt differently. */
  lemma PartOfSpelling(p: Part)
    ensures PartOf(PartPrefix(p), PartSuffix(p)) == Some(p)
  {
    if PartPrefix(p) == "block" {
      BlockSpelling(p);
    } else if PartPrefix(p) == "decoder_block" {
      DecoderSpelling(p);
    }
  }

  lemma BlockSpelling(p: Part)
    requires PartPrefix(p) == "block"
    ensures BlockPartOf(PartSuffix(p)) == Some(p)
  {
  }

  lemma DecoderSpelling(p: Part)
    requires PartPrefix(p) == "decoder_block"
    ensures DecoderPartOf(PartSuffix(p)) == Some(p)
  {
  }

  /** Digit-free text, a non-empty run of digits, and a tail that does not
      start with a digit can be told apart again from their concatenation. */
  lemma {:induction false} SplitAtDigits(p1: string, d1: string, s1: string, p2: string, d2: string, s2: string)
    requires NoDigit(p1) && NoDigit(p2) && AllDigits(d1) && AllDigits(d2) && |d1| > 0 && |d2| > 0
    requires (|s1| == 0 || !IsDigit(s1[0])) && (|s2| == 0 || !IsDigit(s2[0]))
    requires p1 + d1 + s1 == p2 + d2 + s2
    ensures p1 == p2 && d1 == d2 && s1 == s2
  {
    var x := p1 + d1 + s1;
    assert IsDigit(x[|p1|]) && IsDigit(x[|p2|]);
    assert forall i :: 0 <= i < |p1| ==> x[i] == p1[i];
    assert forall i :: 0 <= i < |p2| ==> x[i] == p2[i];
    assert |p1| == |p2|;
    assert p1 == x[..|p1|] == p2;
    assert forall i :: |p1| <= i < |p1| + |d1| ==> x[i] == d1[i - |p1|];
    assert forall i :: |p1| <= i < |p1| + |d2| ==> x[i] == d2[i - |p1|];
    assert |s1| > 0 ==> x[|p1| + |d1|] == s1[0];
    assert |s2| > 0 ==> x[|p1| + |d2|] == s2[0];
    assert |d1| == |d2|;
    assert d1 == x[|p1|..|p1| + |d1|] == d2;
    assert s1 == x[|p1| + |d1|..] == s2;
  }

  lemma NumberedHasDigit(p: Part, k: nat)
    ensures !NoDigit(Render(Numbered(p, k)))
  {
    assert Render(Numbered(p, k))[|PartPrefix(p)|] == NatToString(k)[0];
  }

  /** Two layers whose names the builder can write are equal when their
      names are: the first digit marks where the counter starts, the first
      non-digit after it where it ends, and the texts around it fix the part. */
  lemma RenderInjective(a: LayerName, b: LayerName)
    requires Render(a) == Render(b)
    ensures a == b
  {
    if a.Numbered? { NumberedHasDigit(a.part, a.k); }
    if b.Numbered? { NumberedHasDigit(b.part, b.k); }
    if a.Plain? { PlainTextShape(a.plain, a.plain); }
    if b.Plain? { PlainTextShape(b.plain, b.plain); }
    if a.Plain? && b.Plain? { PlainTextShape(a.plain, b.plain); }
    if a.Numbered? && b.Numbered? {
      PartTextShape(a.part);
      PartTextShape(b.part);
      SplitAtDigits(PartPrefix(a.part), NatToString(a.k), PartSuffix(a.part),
                    PartPrefix(b.part), NatToString(b.k), PartSuffix(b.part));
      NatToStringInjective(a.k, b.k);
      PartOfSpelling(a.part);
      PartOfSpelling(b.part);
    }
  }

  /** The position of a layer in the order the builder creates them: block k
      occupies the hundreds k, and within a block the layers count up. */
  function PartRank(p: Part): nat {
    match p
    case Conv1 => 1 case Conv1Bn => 2 case Conv1Act => 3 case Conv2 => 4 case Conv2Bn => 5
    case DepthConv1A => 10 case DepthConv1B => 11 case DepthConv1Bn => 12 case Conv2ActMid => 13
    case DepthConv2A => 14 case DepthConv2B => 15 case DepthConv2Bn => 16 case Pool => 17
    case ResidConv3d => 18 case Conv2Act => 99
    case DecAct1 => 20 case DecConvTrans1 => 21 case DecBn1 => 22 case DecAct2 => 23
    case DecConvTrans2 => 24 case DecBn2 => 25 case DecUpsampling => 26
    case ResidUpsampling => 28 case ResidConv => 29 case DecAdd => 30
  }

  function Rank(n: LayerName): nat {
    match n
    case Numbered(p, k) => k * 100 + PartRank(p)
    case Plain(Entry) => 0
    case Plain(DropAct) => 450
    case Plain(DropSpectralDim) => 451
    case Plain(DropBn) => 452
    case Plain(ResidDropSpectralDim) => 527
    case Plain(ExitConv) => 10000
  }

  /** Layers with ranks strictly increasing, all between `lo` and `hi`. */
  ghost predicate Ordered(s: seq<LayerName>, lo: int, hi: int)
    decreases |s|
  {
    |s| == 0 || (lo <= Rank(s[0]) <= hi && Ordered(s[1..], Rank(s[0]) + 1, hi))
  }

  lemma {:induction false} OrderedBounds(s: seq<LayerName>, lo: int, hi: int, i: int)
    requires Ordered(s, lo, hi) && 0 <= i < |s|
    ensures lo <= Rank(s[i]) <= hi
    decreases i
  {
    if i > 0 {
      OrderedBounds(s[1..], Rank(s[0]) + 1, hi, i - 1);
    }
  }

  lemma {:induction false} OrderedConcat(a: seq<LayerName>, b: seq<LayerName>, lo: int, hi: int, lo': int, hi': int)
    requires Ordered(a, lo, hi) && Ordered(b, lo', hi') && |a| > 0 && |b| > 0 && hi < lo'
    ensures Ordered(a + b, lo, hi')
    decreases |a|
  {
    OrderedBounds(b, lo', hi', 0);
    assert (a + b)[1..] == a[1..] + b;
    if |a| == 1 {
      assert a[1..] + b == b;
      OrderedLower(b, lo', hi', Rank(a[0]) + 1);
    } else {
      OrderedConcat(a[1..], b, Rank(a[0]) + 1, hi, lo', hi');
    }
  }

  lemma OrderedLower(s: seq<LayerName>, lo: int, hi: int, lo': int)
    requires Ordered(s, lo, hi) && lo' <= lo
    ensures Ordered(s, lo', hi)
  {
  }

  lemma OrderedRaise(s: seq<LayerName>, lo: int, hi: int, hi': int)
    requires Ordered(s, lo, hi) && hi <= hi'
    ensures Ordered(s, lo, hi')
  {
  }

  lemma {:induction false} RankGrows(s: seq<LayerName>, lo: int, hi: int, i: int, j: int)
    requires Ordered(s, lo, hi) && 0 <= i < j < |s|
    ensures Rank(s[i]) < Rank(s[j])
    decreases i
  {
    if i == 0 {
      OrderedBounds(s[1..], Rank(s[0]) + 1, hi, j - 1);
    } else {
      RankGrows(s[1..], Rank(s[0]) + 1, hi, i - 1, j - 1);
    }
  }

  /** Layers ordered by rank have pairwise distinct names. */
  lemma OrderedDistinct(s: seq<LayerName>, lo: int, hi: int)
    requires Ordered(s, lo, hi)
    ensures forall i, j :: 0 <= i < j < |s| ==> Render(s[i]) != Render(s[j])
  {
    forall i, j | 0 <= i < j < |s| ensures Render(s[i]) != Render(s[j]) {
      RankGrows(s, lo, hi, i, j);
      if Render(s[i]) == Render(s[j]) {
        RenderInjective(s[i], s[j]);
      }
    }
  }

  /** The numbered layers of one block, in creation order. */
  const EntryParts: seq<Part> := [Conv1, Conv1Bn, Conv1Act, Conv2, Conv2Bn, Conv2Act]
  const EncoderParts: seq<Part> :=
    [DepthConv1A, DepthConv1B, DepthConv1Bn, Conv2ActMid, DepthConv2A, DepthConv2B, DepthConv2Bn, Pool, ResidConv3d]
  const DecoderHeadParts: seq<Part> := [DecAct1, DecConvTrans1, DecBn1, DecAct2, DecConvTrans2, DecBn2, DecUpsampling]
  const DecoderTailParts: seq<Part> := [ResidUpsampling, ResidConv, DecAdd]

  /** The layers of block k made of the given parts. */
  function Block(parts: seq<Part>, k: nat): (s: seq<LayerName>)
    ensures |s| == |parts|
  {
    seq(|parts|, i requires 0 <= i < |parts| => Numbered(parts[i], k))
  }

  /** The parts the decoder loop creates. */
  predicate DecoderPart(p: Part) {
    20 <= PartRank(p) <= 30
  }

  /** Every numbered layer of a run is of the encoder's or of the decoder's
      kind, as `decoder` says, and carries a counter between lo and hi. */
  ghost predicate CountersWithin(s: seq<LayerName>, decoder: bool, lo: nat, hi: nat) {
    forall i :: 0 <= i < |s| && s[i].Numbered? ==> DecoderPart(s[i].part) == decoder && lo <= s[i].k <= hi
  }

  lemma BlockCounters(parts: seq<Part>, k: nat, decoder: bool)
    requires forall i :: 0 <= i < |parts| ==> DecoderPart(parts[i]) == decoder
    ensures CountersWithin(Block(parts, k), decoder, k, k)
  {
  }

  lemma {:induction false} CountersConcat(a: seq<LayerName>, b: seq<LayerName>, decoder: bool, lo: nat, hi: nat)
    requires CountersWithin(a, decoder, lo, hi) && CountersWithin(b, decoder, lo, hi)
    ensures CountersWithin(a + b, decoder, lo, hi)
  {
    forall i | 0 <= i < |a + b| && (a + b)[i].Numbered?
      ensures DecoderPart((a + b)[i].part) == decoder && lo <= (a + b)[i].k <= hi
    {
      if i < |a| {
        assert (a + b)[i] == a[i];
      } else {
        assert (a + b)[i] == b[i - |a|];
      }
    }
  }

  predicate Increasing(parts: seq<Part>) {
    forall i :: 0 <= i < |parts| - 1 ==> PartRank(parts[i]) < PartRank(parts[i + 1])
  }

  /** Within each block the layers are created in rank order. */
  lemma PartListsIncreasing()
    ensures Increasing(EntryParts) && Increasing(EncoderParts)
    ensures Increasing(DecoderHeadParts) && Increasing(DecoderTailParts)
  {
  }

  lemma {:induction false} BlockOrdered(parts: seq<Part>, k: nat, lo: int, hi: int)
    requires Increasing(parts) && |parts| > 0
    requires lo <= k * 100 + PartRank(parts[0]) && k * 100 + PartRank(parts[|parts| - 1]) <= hi
    ensures Ordered(Block(parts, k), lo, hi)
    decreases |parts|
  {
    var s := Block(parts, k);
    if |parts| > 1 {
      assert Increasing(parts[1..]);
      BlockOrdered(parts[1..], k, k * 100 + PartRank(parts[0]) + 1, hi);
      assert s[1..] == Block(parts[1..], k);
    } else {
      assert s[1..] == [];
    }
  }

  lemma EntryOrdered()
    ensures Ordered([Plain(Entry)] + Block(EntryParts, 1), 0, 199)
  {
    PartListsIncreasing();
    PlainOrdered(Entry, 0, 0);
    BlockOrdered(EntryParts, 1, 101, 199);
    OrderedConcat([Plain(Entry)], Block(EntryParts, 1), 0, 0, 101, 199);
  }

  lemma PlainOrdered(t: PlainPart, lo: int, hi: int)
    requires lo <= Rank(Plain(t)) <= hi
    ensures Ordered([Plain(t)], lo, hi)
  {
    assert [Plain(t)][1..] == [];
  }

  const EncoderFilters: seq<int> := [128, 256, 728]
  const DecoderFilters: seq<int> := [728, 256, 128, 64]

  /** The named layers of the entry block and the encoder loop, with the block
      counter the loop leaves behind. */
  method EncoderLayerNames() returns (layers: seq<LayerName>, k: nat)
    ensures Ordered(layers, 0, 418) && |layers| > 0
    ensures k == 1 + |EncoderFilters|
    ensures forall j :: 2 <= j <= 4 ==> Numbered(DepthConv1A, j) in layers
    ensures forall j :: 1 <= j <= 3 ==> Numbered(Conv2Act, j) in layers
    ensures CountersWithin(layers, false, 1, 4)
  {
    layers := [Plain(Entry)] + Block(EntryParts, 1);
    EntryOrdered();
    BlockCounters(EntryParts, 1, false);
    CountersConcat([Plain(Entry)], Block(EntryParts, 1), false, 1, 1);
    assert layers[6] == Numbered(Conv2Act, 1);
    k := 1;
    for i := 0 to |EncoderFilters|
      invariant k == 1 + i && |layers| > 0
      invariant Ordered(layers, 0, if k == 1 then 199 else k * 100 + 18)
      invariant forall j :: 2 <= j <= k ==> Numbered(DepthConv1A, j) in layers
      invariant forall j :: 1 <= j < k ==> Numbered(Conv2Act, j) in layers
      invariant Numbered(Conv2Act, 1) in layers
      invariant CountersWithin(layers, false, 1, k)
    {
      ghost var before := layers;
      k := k + 1;
      if k > 2 {
        CountersConcat(layers, [Numbered(Conv2Act, k - 1)], false, 1, k);
        layers := layers + [Numbered(Conv2Act, k - 1)];
      }
      ghost var acted := layers;
      BlockCounters(EncoderParts, k, false);
      CountersConcat(layers, Block(EncoderParts, k), false, 1, k);
      layers := layers + Block(EncoderParts, k);
      EncoderStepOrdered(before, acted, layers, k);
      EncoderStepMembers(before, acted, layers, k);
    }
  }

  /** One pass of the encoder loop keeps the layers in rank order: the
      activation closing block k - 1 (added when k > 2) and block k all rank
      above what came before. */
  lemma EncoderStepOrdered(before: seq<LayerName>, acted: seq<LayerName>, after: seq<LayerName>, k: nat)
    requires k >= 2 && |before| > 0
    requires Ordered(before, 0, if k == 2 then 199 else (k - 1) * 100 + 18)
    requires acted == if k > 2 then before + [Numbered(Conv2Act, k - 1)] else before
    requires after == acted + Block(EncoderParts, k)
    ensures Ordered(after, 0, k * 100 + 18) && |after| > 0
  {
    ActAppended(before, k);
    EncoderBlockAppended(acted, k);
  }

  lemma ActAppended(before: seq<LayerName>, k: nat)
    requires k >= 2 && |before| > 0
    requires Ordered(before, 0, if k == 2 then 199 else (k - 1) * 100 + 18)
    ensures Ordered(if k > 2 then before + [Numbered(Conv2Act, k - 1)] else before, 0, (k - 1) * 100 + 99)
  {
    if k > 2 {
      OrderedConcat(before, [Numbered(Conv2Act, k - 1)], 0, (k - 1) * 100 + 18, (k - 1) * 100 + 99, (k - 1) * 100 + 99);
    }
  }

  lemma EncoderBlockAppended(acted: seq<LayerName>, k: nat)
    requires k >= 2 && |acted| > 0 && Ordered(acted, 0, (k - 1) * 100 + 99)
    ensures Ordered(acted + Block(EncoderParts, k), 0, k * 100 + 18)
  {
    PartListsIncreasing();
    BlockOrdered(EncoderParts, k, k * 100 + 10, k * 100 + 18);
    OrderedConcat(acted, Block(EncoderParts, k), 0, (k - 1) * 100 + 99, k * 100 + 10, k * 100 + 18);
  }

  /** One pass of the encoder loop adds block k's first layer and, when
      k > 2, the activation closing block k - 1, and keeps every earlier layer. */
  lemma EncoderStepMembers(before: seq<LayerName>, acted: seq<LayerName>, after: seq<LayerName>, k: nat)
    requires k >= 2
    requires forall j :: 2 <= j < k ==> Numbered(DepthConv1A, j) in before
    requires forall j :: 1 <= j < k - 1 ==> Numbered(Conv2Act, j) in before
    requires Numbered(Conv2Act, 1) in before
    requires acted == if k > 2 then before + [Numbered(Conv2Act, k - 1)] else before
    requires after == acted + Block(EncoderParts, k)
    ensures forall j :: 2 <= j <= k ==> Numbered(DepthConv1A, j) in after
    ensures forall j :: 1 <= j < k ==> Numbered(Conv2Act, j) in after
    ensures Numbered(Conv2Act, 1) in after
  {
    if k > 2 {
      assert acted[|acted| - 1] == Numbered(Conv2Act, k - 1);
    }
    assert after[|acted|] == Numbered(DepthConv1A, k);
    assert acted <= after;
    PrefixKeeps(acted, after, Numbered(Conv2Act, k - 1));
    assert before <= after;
    GrowMembers(before, after, DepthConv1A, 2, k);
    GrowMembers(before, after, Conv2Act, 1, k - 1);
    PrefixKeeps(before, after, Numbered(Conv2Act, 1));
  }

  /** The named layers between the encoder and the decoder: the activation,
      the spectral reduction the builder's argument asks for, and the batch
      normalisation. */
  method MiddleLayerNames(dropMiddle: string) returns (layers: seq<LayerName>)
    ensures Ordered(layers, 450, 452) && |layers| > 0
    ensures Plain(DropSpectralDim) in layers <==> DropSpectral(dropMiddle) != NoDrop
    ensures CountersWithin(layers, false, 1, 4)
  {
    PlainOrdered(DropAct, 450, 450);
    layers := [Plain(DropAct)];
    if DropSpectral(dropMiddle) != NoDrop {
      PlainOrdered(DropSpectralDim, 451, 451);
      OrderedConcat(layers, [Plain(DropSpectralDim)], 450, 450, 451, 451);
      layers := layers + [Plain(DropSpectralDim)];
    }
    PlainOrdered(DropBn, 452, 452);
    OrderedConcat(layers, [Plain(DropBn)], 450, 451, 452, 452);
    layers := layers + [Plain(DropBn)];
  }

  /** The named layers of the decoder loop, which continues the block counter
      of the encoder, and of the output convolution. */
  method DecoderLayerNames(dropMiddle: string, k0: nat) returns (layers: seq<LayerName>, k: nat)
    requires k0 == 1 + |EncoderFilters|
    ensures Ordered(layers, 520, 10000) && |layers| > 0
    ensures k == k0 + |DecoderFilters|
    ensures forall j :: 5 <= j <= 8 ==> Numbered(DecAct1, j) in layers
    ensures CountersWithin(layers, true, 5, 8)
  {
    PartListsIncreasing();
    var drop := DropSpectral(dropMiddle);
    layers := [];
    k := k0;
    for i := 0 to |DecoderFilters|
      invariant k == k0 + i
      invariant i == 0 ==> layers == []
      invariant i > 0 ==> |layers| > 0 && Ordered(layers, 520, k * 100 + 30)
      invariant forall j :: 5 <= j <= k ==> Numbered(DecAct1, j) in layers
      invariant CountersWithin(layers, true, 5, k)
    {
      var filters := DecoderFilters[i];
      ghost var before := layers;
      k := k + 1;
      BlockCounters(DecoderHeadParts, k, true);
      CountersConcat(layers, Block(DecoderHeadParts, k), true, 5, k);
      layers := layers + Block(DecoderHeadParts, k);
      ghost var headed := layers;
      var resid := filters == 728 && drop != NoDrop;
      if resid {
        CountersConcat(layers, [Plain(ResidDropSpectralDim)], true, 5, k);
        layers := layers + [Plain(ResidDropSpectralDim)];
      }
      BlockCounters(DecoderTailParts, k, true);
      CountersConcat(layers, Block(DecoderTailParts, k), true, 5, k);
      layers := layers + Block(DecoderTailParts, k);
      DecoderStepOrdered(before, headed, layers, k, resid);
      DecoderStepMembers(before, headed, layers, k, resid);
    }
    PlainOrdered(ExitConv, 10000, 10000);
    OrderedConcat(layers, [Plain(ExitConv)], 520, 830, 10000, 10000);
    ghost var decoded := layers;
    CountersConcat(layers, [Plain(ExitConv)], true, 5, 8);
    layers := layers + [Plain(ExitConv)];
    GrowMembers(decoded, layers, DecAct1, 5, 8);
  }

  lemma PrefixKeeps(a: seq<LayerName>, b: seq<LayerName>, n: LayerName)
    requires a <= b && n in a
    ensures n in b
  {
    var i :| 0 <= i < |a| && a[i] == n;
    assert b[i] == n;
  }

  /** Blocks numbered lo up to k are in a run once those below k are in a
      prefix of it and block k is in it. */
  lemma GrowMembers(before: seq<LayerName>, after: seq<LayerName>, p: Part, lo: nat, k: nat)
    requires before <= after
    requires forall j :: lo <= j < k ==> Numbered(p, j) in before
    requires k >= lo ==> Numbered(p, k) in after
    ensures forall j :: lo <= j <= k ==> Numbered(p, j) in after
  {
    forall j | lo <= j < k ensures Numbered(p, j) in after {
      PrefixKeeps(before, after, Numbered(p, j));
    }
  }

  lemma AppendKeeps(a: seq<LayerName>, b: seq<LayerName>)
    ensures forall n :: n in a ==> n in a + b
    ensures forall n :: n in b ==> n in a + b
  {
  }

  /** One pass of the decoder loop keeps the layers in rank order; the
      spectral reduction of the residual fits only in block 5. */
  lemma DecoderStepOrdered(before: seq<LayerName>, headed: seq<LayerName>, after: seq<LayerName>, k: nat, resid: bool)
    requires k >= 5 && (resid ==> k == 5)
    requires |before| == 0 <==> k == 5
    requires |before| > 0 ==> Ordered(before, 520, (k - 1) * 100 + 30)
    requires headed == before + Block(DecoderHeadParts, k)
    requires after == (if resid then headed + [Plain(ResidDropSpectralDim)] else headed) + Block(DecoderTailParts, k)
    ensures Ordered(after, 520, k * 100 + 30) && |after| > 0
  {
    HeadAppended(before, k);
    var mid := if resid then headed + [Plain(ResidDropSpectralDim)] else headed;
    ResidAppended(headed, k, resid);
    TailAppended(mid, k);
  }

  lemma HeadAppended(before: seq<LayerName>, k: nat)
    requires k >= 5
    requires |before| == 0 <==> k == 5
    requires |before| > 0 ==> Ordered(before, 520, (k - 1) * 100 + 30)
    ensures Ordered(before + Block(DecoderHeadParts, k), 520, k * 100 + 26)
  {
    var head := Block(DecoderHeadParts, k);
    HeadBlockOrdered(k);
    if |before| == 0 {
      assert before + head == head;
      OrderedLower(head, k * 100 + 20, k * 100 + 26, 520);
    } else {
      OrderedConcat(before, head, 520, (k - 1) * 100 + 30, k * 100 + 20, k * 100 + 26);
    }
  }

  lemma HeadBlockOrdered(k: nat)
    ensures |Block(DecoderHeadParts, k)| > 0
    ensures Ordered(Block(DecoderHeadParts, k), k * 100 + 20, k * 100 + 26)
  {
    PartListsIncreasing();
    BlockOrdered(DecoderHeadParts, k, k * 100 + 20, k * 100 + 26);
  }

  lemma ResidAppended(headed: seq<LayerName>, k: nat, resid: bool)
    requires k >= 5 && (resid ==> k == 5) && |headed| > 0
    requires Ordered(headed, 520, k * 100 + 26)
    ensures Ordered(if resid then headed + [Plain(ResidDropSpectralDim)] else headed, 520, k * 100 + 27)
  {
    if resid {
      PlainOrdered(ResidDropSpectralDim, 527, k * 100 + 27);
      OrderedConcat(headed, [Plain(ResidDropSpectralDim)], 520, k * 100 + 26, 527, k * 100 + 27);
    } else {
      OrderedRaise(headed, 520, k * 100 + 26, k * 100 + 27);
    }
  }

  lemma TailAppended(mid: seq<LayerName>, k: nat)
    requires |mid| > 0 && Ordered(mid, 520, k * 100 + 27)
    ensures Ordered(mid + Block(DecoderTailParts, k), 520, k * 100 + 30)
  {
    TailBlockOrdered(k);
    OrderedConcat(mid, Block(DecoderTailParts, k), 520, k * 100 + 27, k * 100 + 28, k * 100 + 30);
  }

  lemma TailBlockOrdered(k: nat)
    ensures |Block(DecoderTailParts, k)| > 0
    ensures Ordered(Block(DecoderTailParts, k), k * 100 + 28, k * 100 + 30)
  {
    PartListsIncreasing();
    BlockOrdered(DecoderTailParts, k, k * 100 + 28, k * 100 + 30);
  }

  /** One pass of the decoder loop adds block k's first layer and keeps every
      earlier layer. */
  lemma DecoderStepMembers(before: seq<LayerName>, headed: seq<LayerName>, after: seq<LayerName>, k: nat, resid: bool)
    requires k >= 5
    requires forall j :: 5 <= j < k ==> Numbered(DecAct1, j) in before
    requires headed == before + Block(DecoderHeadParts, k)
    requires after == (if resid then headed + [Plain(ResidDropSpectralDim)] else headed) + Block(DecoderTailParts, k)
    ensures forall j :: 5 <= j <= k ==> Numbered(DecAct1, j) in after
  {
    assert headed[|before|] == Numbered(DecAct1, k);
    assert headed <= after;
    PrefixKeeps(headed, after, Numbered(DecAct1, k));
    assert before <= after;
    GrowMembers(before, after, DecAct1, 5, k);
  }

  /** The name strings of a run of layers. */
  function RenderAll(layers: seq<LayerName>): (names: seq<string>)
    ensures |names| == |layers|
  {
    seq(|layers|, i requires 0 <= i < |layers| => Render(layers[i]))
  }

  lemma RenderedIn(layers: seq<LayerName>, n: LayerName)
    requires n in layers
    ensures Render(n) in RenderAll(layers)
  {
    var i :| 0 <= i < |layers| && layers[i] == n;
    assert RenderAll(layers)[i] == Render(n);
  }

  /** Layers in rank order render to pairwise distinct names. */
  lemma RenderAllDistinct(layers: seq<LayerName>, lo: int, hi: int)
    requires Ordered(layers, lo, hi)
    ensures forall i, j :: 0 <= i < j < |layers| ==> RenderAll(layers)[i] != RenderAll(layers)[j]
  {
    OrderedDistinct(layers, lo, hi);
  }

  /** A plain name appears among the rendered names only when the layer does. */
  lemma PlainRendered(layers: seq<LayerName>, t: PlainPart)
    ensures PlainText(t) in RenderAll(layers) <==> Plain(t) in layers
  {
    if PlainText(t) in RenderAll(layers) {
      var i :| 0 <= i < |layers| && RenderAll(layers)[i] == PlainText(t);
      RenderInjective(layers[i], Plain(t));
    }
    if Plain(t) in layers {
      RenderedIn(layers, Plain(t));
    }
  }

  /** The named layers of get_xception3d_1 in creation order. The counter
      runs 2..4 through the encoder and 5..8 through the decoder; because the
      activation closing block k - 1 is only added from k = 3 on, block1's
      own closing activation is not named twice, and no two layers share a
      name. */
  method Xception3d1LayerNames(dropMiddle: string) returns (names: seq<string>)
    ensures forall i, j :: 0 <= i < j < |names| ==> names[i] != names[j]
    ensures forall j: nat :: 2 <= j <= 4 ==> "block" + NatToString(j) + "_DepthConv1_a" in names
    ensures forall j: nat :: 5 <= j <= 8 ==> "decoder_block" + NatToString(j) + "_act1" in names
    ensures forall j: nat :: 1 <= j <= 3 ==> "block" + NatToString(j) + "_conv2_act" in names
    ensures "drop_spectral_dim" in names <==> DropSpectral(dropMiddle) != NoDrop
    ensures forall p: Part, j: nat :: Render(Numbered(p, j)) in names ==>
      if DecoderPart(p) then 5 <= j <= 8 else 1 <= j <= 4
  {
    var encoder, k := EncoderLayerNames();
    var middle := MiddleLayerNames(dropMiddle);
    var decoder, _ := DecoderLayerNames(dropMiddle, k);
    OrderedConcat(encoder, middle, 0, 418, 450, 452);
    OrderedConcat(encoder + middle, decoder, 0, 452, 520, 10000);
    var layers := encoder + middle + decoder;
    names := RenderAll(layers);
    RenderAllDistinct(layers, 0, 10000);
    AppendKeeps(encoder, middle);
    AppendKeeps(encoder + middle, decoder);
    forall j: nat | 2 <= j <= 4 ensures "block" + NatToString(j) + "_DepthConv1_a" in names {
      RenderedIn(layers, Numbered(DepthConv1A, j));
    }
    forall j: nat | 5 <= j <= 8 ensures "decoder_block" + NatToString(j) + "_act1" in names {
      RenderedIn(layers, Numbered(DecAct1, j));
    }
    forall j: nat | 1 <= j <= 3 ensures "block" + NatToString(j) + "_conv2_act" in names {
      RenderedIn(layers, Numbered(Conv2Act, j));
    }
    PlainRendered(layers, DropSpectralDim);
    CountersConcat(encoder, middle, false, 1, 4);
    forall p: Part, j: nat | Render(Numbered(p, j)) in names
      ensures if DecoderPart(p) then 5 <= j <= 8 else 1 <= j <= 4
    {
      RenderedCounter(encoder + middle, decoder, p, j);
    }
    OutsideRanks(encoder, 0, 418, Plain(DropSpectralDim));
    OutsideRanks(decoder, 520, 10000, Plain(DropSpectralDim));
  }

  /** A numbered name found among the rendered encoder and decoder layers
      carries a counter within the bounds of the run it came from. */
  lemma RenderedCounter(encoder: seq<LayerName>, decoder: seq<LayerName>, p: Part, j: nat)
    requires CountersWithin(encoder, false, 1, 4) && CountersWithin(decoder, true, 5, 8)
    requires Render(Numbered(p, j)) in RenderAll(encoder + decoder)
    ensures if DecoderPart(p) then 5 <= j <= 8 else 1 <= j <= 4
  {
    var layers := encoder + decoder;
    var i :| 0 <= i < |layers| && RenderAll(layers)[i] == Render(Numbered(p, j));
    RenderInjective(layers[i], Numbered(p, j));
    if i < |encoder| {
      assert layers[i] == encoder[i];
    } else {
      assert layers[i] == decoder[i - |encoder|];
    }
  }

  /** A layer whose rank lies outside an ordered run's bounds is not in it. */
  lemma OutsideRanks(s: seq<LayerName>, lo: int, hi: int, n: LayerName)
    requires Ordered(s, lo, hi) && (Rank(n) < lo || hi < Rank(n))
    ensures n !in s
  {
    if n in s {
      var i :| 0 <= i < |s| && s[i] == n;
      OrderedBounds(s, lo, hi, i);
    }
  }
}
