/** The two 3-D/2-D U-Nets of cnn_models and the dispatch of get_cnn_model:
    a framework name containing "cnn3d2" selects the seven-level network,
    one containing only "cnn3d" the five-level one. The Keras layers are
    outside the model; what is kept is each network's encoder (filters and
    kernel of every downsampling block), which encoder feature each
    upsampling block concatenates, and the arguments training receives. */
module CnnModels {
  import opened Wrappers
  import opened Text
  import opened TrainUtils

  /** downsample_block(x, filters, kernel): a double 3-D convolution whose
      output is kept as a skip feature, then max pooling. */
  datatype Down = Down(filters: int, kernel: (int, int, int))

  /** upsample_block(x, features[skip], filters): a transposed convolution
      concatenated with the spectral mean of encoder feature `skip`
      (0 for f1). */
  datatype Up = Up(filters: int, skip: nat)

  /** The structure a builder returns: its input shape `(width, height,
      depth, 1)` in the builder's own parameter names, the encoder, the
      bottleneck's double convolution and the decoder, and the Keras model name. */
  datatype UNet = UNet(name: string, inputShape: (int, int, int, int), encoder: seq<Down>,
                       bottleneck: Down, decoder: seq<Up>)

  /** Every decoder block consumes one encoder feature, deepest first, and
      has as many filters as the block that produced it. */
  ghost predicate Mirrored(net: UNet) {
    && |net.decoder| == |net.encoder|
    && (forall t :: 0 <= t < |net.decoder| ==> net.decoder[t].skip == |net.encoder| - 1 - t)
    && (forall t :: 0 <= t < |net.decoder| ==> net.decoder[t].filters == net.encoder[net.decoder[t].skip].filters)
  }

  /** cnn3d: five downsampling blocks of 4, 8, 8, 16, 16 filters, a bottleneck
      of 32, then upsampling with f5, f4, f3, f2, f1. */
  function Cnn3d(width: int, height: int, numChannels: int, numClasses: int): (net: UNet)
    ensures Mirrored(net)
    ensures net.inputShape == (width, height, numChannels, 1)
    ensures |net.encoder| == 5 && net.bottleneck.filters == 32
  {
    UNet("cnn3d", (width, height, numChannels, 1),
         [Down(4, (3, 3, 50)), Down(8, (3, 3, 50)), Down(8, (3, 3, 30)), Down(16, (3, 3, 20)), Down(16, (3, 3, 20))],
         Down(32, (1, 1, 19)),
         [Up(16, 4), Up(16, 3), Up(8, 2), Up(8, 1), Up(4, 0)])
  }

  /** cnn3d2: seven downsampling blocks, the last three with 1×1×5 kernels,
      then upsampling with f7 down to f1. */
  function Cnn3d2(width: int, height: int, numChannels: int, numClasses: int): (net: UNet)
    ensures Mirrored(net)
    ensures net.inputShape == (width, height, numChannels, 1)
    ensures |net.encoder| == 7 && net.bottleneck.filters == 32
  {
    UNet("cnn3d_2d", (width, height, numChannels, 1),
         [Down(4, (3, 3, 20)), Down(8, (3, 3, 20)), Down(8, (3, 3, 20)), Down(16, (3, 3, 20)),
          Down(16, (1, 1, 5)), Down(16, (1, 1, 5)), Down(16, (1, 1, 5))],
         Down(32, (1, 1, 5)),
         [Up(16, 6), Up(16, 5), Up(16, 4), Up(16, 3), Up(8, 2), Up(8, 1), Up(4, 0)])
  }

  /** In a mirrored network each encoder feature is concatenated exactly
      once: the decoder block that uses feature f is block |encoder| - 1 - f. */
  lemma {:induction false} MirroredUsesEachFeatureOnce(net: UNet, f: nat)
    requires Mirrored(net) && f < |net.encoder|
    ensures exists t :: 0 <= t < |net.decoder| && net.decoder[t].skip == f
    ensures forall t :: 0 <= t < |net.decoder| && net.decoder[t].skip == f ==> t == |net.encoder| - 1 - f
  {
    var t := |net.encoder| - 1 - f;
    assert net.decoder[t].skip == f;
  }

  datatype Builder = Cnn3dBuilder | Cnn3d2Builder

  /** The tests of get_cnn_model, in the order they are made. */
  const CnnRules: seq<Rule<Builder>> := [Rule("cnn3d2", Cnn3d2Builder), Rule("cnn3d", Cnn3dBuilder)]

  lemma Cnn3dInCnn3d2()
    ensures Contains("cnn3d2", "cnn3d")
    ensures !Contains("cnn3d", "cnn3d2")
  {
    assert "cnn3d2"[0..5] == "cnn3d";
    OccursContains("cnn3d2", "cnn3d", 0);
    NotContainsLonger("cnn3d", "cnn3d2");
  }

  /** Each test of get_cnn_model is reachable: "cnn3d2" is checked first, so a
      name containing it gets cnn3d2 although it also contains "cnn3d". */
  lemma CnnRulesReachable()
    ensures EveryRuleReachable(CnnRules)
  {
    Cnn3dInCnn3d2();
    SelfContains("cnn3d2");
    SelfContains("cnn3d");
  }

  /** Had the tests been made the other way round, cnn3d2 could never be
      chosen. */
  lemma SwappedOrderHidesCnn3d2(name: string)
    ensures FirstMatch([Rule("cnn3d", Cnn3dBuilder), Rule("cnn3d2", Cnn3d2Builder)], name) != Some(1)
  {
    Cnn3dInCnn3d2();
    Shadowed([Rule("cnn3d", Cnn3dBuilder), Rule("cnn3d2", Cnn3d2Builder)], 0, 1, name);
  }

  const CnnDefaultEpochs := 200
  const CnnDefaultBatchSize := 64
  const CnnDefaultOptimizer := "RMSProp"
  const CnnDefaultLearningRate: real := 0.0001
  const CnnDefaultDecay: real := 0.0
  const CnnDefaultLoss := "BCE+JC"

  /** What get_cnn_model sets up before training: the network, the compiled
      optimizer and loss, and the arguments of fit_model. */
  datatype CnnTraining<X, Y> = CnnTraining(net: UNet, compiled: Compiled, epochs: int, batchSize: int,
                                           xTrain: X, yTrain: Y, xTest: X, yTest: Y)

  /** get_cnn_model: the builder is called with (height, width) in its
      (width, height) parameters; a name with neither pattern leaves `model`
      unbound, which fails at the compile call. */
  function GetCnnModel<X, Y>(framework: string, xTrainRaw: X, yTrain: Y, xTestRaw: X, yTest: Y,
                             height: int, width: int, numChannels: int, numClasses: int,
                             numEpochs: int, batchSize: int, optimizerName: string,
                             learningRate: real, decay: real, lossFunction: string): (r: Result<CnnTraining<X, Y>>)
    ensures r.Err? <==> !Contains(framework, "cnn3d")
    ensures r.Err? ==> r.error == UnboundLocalError
    ensures r.Ok? ==> (r.value.net.name == "cnn3d_2d" <==> Contains(framework, "cnn3d2"))
    ensures r.Ok? ==> |r.value.net.encoder| == (if Contains(framework, "cnn3d2") then 7 else 5)
    ensures r.Ok? ==> Mirrored(r.value.net)
    ensures r.Ok? ==> r.value.net.inputShape == (height, width, numChannels, 1)
    ensures r.Ok? ==> r.value.xTrain == xTrainRaw && r.value.xTest == xTestRaw
                      && r.value.yTrain == yTrain && r.value.yTest == yTest
    ensures r.Ok? ==> r.value.epochs == numEpochs && r.value.batchSize == batchSize
    ensures r.Ok? ==> r.value.compiled == CompileCustom(optimizerName, learningRate, decay, lossFunction)
  {
    assert Contains(framework, "cnn3d2") ==> Contains(framework, "cnn3d") by {
      Cnn3dInCnn3d2();
      if Contains(framework, "cnn3d2") {
        ContainsTransitive(framework, "cnn3d2", "cnn3d");
      }
    }
    if Contains(framework, "cnn3d2") then
      Ok(CnnTraining(Cnn3d2(height, width, numChannels, numClasses),
                     CompileCustom(optimizerName, learningRate, decay, lossFunction),
                     numEpochs, batchSize, xTrainRaw, yTrain, xTestRaw, yTest))
    else if Contains(framework, "cnn3d") then
      Ok(CnnTraining(Cnn3d(height, width, numChannels, numClasses),
                     CompileCustom(optimizerName, learningRate, decay, lossFunction),
                     numEpochs, batchSize, xTrainRaw, yTrain, xTestRaw, yTest))
    else Err(UnboundLocalError)
  }

  /** The chain of get_cnn_model is the rule table read in order: the first
      rule the name matches names the network that is built. */
  lemma GetCnnModelFollowsRules<X, Y>(framework: string, xTrainRaw: X, yTrain: Y, xTestRaw: X, yTest: Y,
                                      height: int, width: int, numChannels: int, numClasses: int,
                                      numEpochs: int, batchSize: int, optimizerName: string,
                                      learningRate: real, decay: real, lossFunction: string)
    ensures var r := GetCnnModel(framework, xTrainRaw, yTrain, xTestRaw, yTest, height, width, numChannels,
                                 numClasses, numEpochs, batchSize, optimizerName, learningRate, decay, lossFunction);
      && (r.Ok? <==> Select(CnnRules, framework).Some?)
      && (r.Ok? ==> (r.value.net.name == "cnn3d_2d" <==> Select(CnnRules, framework) == Some(Cnn3d2Builder)))
  {
    var m := FirstMatch(CnnRules, framework);
    assert CnnRules[0].pattern == "cnn3d2" && CnnRules[1].pattern == "cnn3d";
    if m == Some(1) {
      assert !Contains(framework, "cnn3d2");
    }
  }

  /** With its default arguments get_cnn_model compiles RMSprop at 1e-4 with
      the zero decay passed on, and the BCE+Jaccard loss. */
  lemma CnnDefaultsCompile()
    ensures CompileCustom(CnnDefaultOptimizer, CnnDefaultLearningRate, CnnDefaultDecay, CnnDefaultLoss)
         == Compiled(Optimizer(RMSprop, 0.0001, Some(0.0)), BceJaccard)
  {
  }
}
