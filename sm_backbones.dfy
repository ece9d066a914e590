/** Backbone selection of hsi_segment_from_sm: a framework name is mapped to
    one of five pretrained backbones of the segmentation_models library by an
    ordered chain of substring tests, and the name decides whether a 1×1
    convolution adapts the hyperspectral channels to an ImageNet encoder.
    The Keras models themselves are outside the model. */
module SmBackbones {
  import opened Wrappers
  import opened Text

  const ResnetBackbone := "resnet34"
  const InceptionBackbone := "inceptionv3"
  const InceptionResnetBackbone := "inceptionresnetv2"
  const VggBackbone := "vgg19"
  const EfficientnetBackbone := "efficientnetb7"

  /** The five backbones get_target_backbone can answer. */
  ghost predicate IsBackbone(b: string) {
    b == ResnetBackbone || b == InceptionBackbone || b == InceptionResnetBackbone
    || b == VggBackbone || b == EfficientnetBackbone
  }

  /** The substrings get_target_backbone tests, in order. */
  ghost predicate MatchesAny(name: string) {
    Contains(name, "inceptionresnet") || Contains(name, "resnet") || Contains(name, "inception")
    || Contains(name, "efficientnet") || Contains(name, "vgg")
  }

  /** get_target_backbone: the first of the tests that the name passes picks
      the backbone; a name that passes none leaves `target_backbone` unbound. */
  function GetTargetBackbone(backbone: string): (r: Result<string>)
    ensures r.Ok? ==> IsBackbone(r.value)
    ensures r.Err? <==> !MatchesAny(backbone)
    ensures r.Err? ==> r.error == UnboundLocalError
  {
    if Contains(backbone, "inceptionresnet") then Ok(InceptionResnetBackbone)
    else if Contains(backbone, "resnet") then Ok(ResnetBackbone)
    else if Contains(backbone, "inception") then Ok(InceptionBackbone)
    else if Contains(backbone, "efficientnet") then Ok(EfficientnetBackbone)
    else if Contains(backbone, "vgg") then Ok(VggBackbone)
    else Err(UnboundLocalError)
  }

  lemma ResnetInInceptionResnet()
    ensures Contains("inceptionresnet", "resnet")
    ensures Contains("inceptionresnet", "inception")
  {
    assert "inceptionresnet"[9..15] == "resnet";
    OccursContains("inceptionresnet", "resnet", 9);
    assert "inceptionresnet"[0..9] == "inception";
    OccursContains("inceptionresnet", "inception", 0);
  }

  /** Any name mentioning "inceptionresnet" gets inceptionresnetv2, although
      it also mentions both "resnet" and "inception": its test comes first. */
  lemma InceptionResnetFirst(name: string)
    requires Contains(name, "inceptionresnet")
    ensures GetTargetBackbone(name) == Ok(InceptionResnetBackbone)
    ensures Contains(name, "resnet") && Contains(name, "inception")
  {
    ResnetInInceptionResnet();
    ContainsTransitive(name, "inceptionresnet", "resnet");
    ContainsTransitive(name, "inceptionresnet", "inception");
  }

  /** A name with "resnet" but not "inceptionresnet" gets resnet34, whether or
      not it also mentions "inception". */
  lemma ResnetSecond(name: string)
    requires Contains(name, "resnet") && !Contains(name, "inceptionresnet")
    ensures GetTargetBackbone(name) == Ok(ResnetBackbone)
  {
  }

  /** A name with "inception" and no "resnet" gets inceptionv3; such a name
      cannot contain "inceptionresnet", which contains "resnet". */
  lemma InceptionThird(name: string)
    requires Contains(name, "inception") && !Contains(name, "resnet")
    ensures GetTargetBackbone(name) == Ok(InceptionBackbone)
  {
    if Contains(name, "inceptionresnet") {
      ResnetInInceptionResnet();
      ContainsTransitive(name, "inceptionresnet", "resnet");
    }
  }

  /** With neither "resnet" nor "inception", "efficientnet" comes before "vgg". */
  lemma EfficientnetThenVgg(name: string)
    requires !Contains(name, "resnet") && !Contains(name, "inception")
    ensures Contains(name, "efficientnet") ==> GetTargetBackbone(name) == Ok(EfficientnetBackbone)
    ensures !Contains(name, "efficientnet") && Contains(name, "vgg") ==> GetTargetBackbone(name) == Ok(VggBackbone)
  {
    if Contains(name, "inceptionresnet") {
      ResnetInInceptionResnet();
      ContainsTransitive(name, "inceptionresnet", "resnet");
    }
  }

  /** What get_sm_model builds: either segmentation_models' Unet with ImageNet
      encoder weights behind a 1×1 convolution mapping the channels to 3
      (add_input_layer, which leaves the class count at the library's default),
      or a plain Unet without pretrained weights taking the channels directly. */
  datatype SmModel =
    | InputAdapter(backbone: string, numChannels: int)
    | PlainUnet(backbone: string, numChannels: int, numClasses: int)

  /** get_sm_model: the backbone resolved from the name; a name mentioning
      "pretrained" takes the input-adapter path. */
  function GetSmModel(backbone: string, height: int, width: int, numChannels: int, numClasses: int): (r: Result<SmModel>)
    ensures r.Err? <==> GetTargetBackbone(backbone).Err?
    ensures r.Err? ==> r.error == UnboundLocalError
    ensures r.Ok? ==> r.value.backbone == GetTargetBackbone(backbone).value && IsBackbone(r.value.backbone)
    ensures r.Ok? ==> (r.value.InputAdapter? <==> Contains(backbone, "pretrained"))
    ensures r.Ok? ==> r.value.numChannels == numChannels
    ensures r.Ok? && r.value.PlainUnet? ==> r.value.numClasses == numClasses
  {
    match GetTargetBackbone(backbone)
    case Err(e) => Err(e)
    case Ok(target) =>
      if Contains(backbone, "pretrained") then Ok(InputAdapter(target, numChannels))
      else Ok(PlainUnet(target, numChannels, numClasses))
  }

  /** What build_sm_model hands back besides the compiled model: the training
      and test inputs as preprocessed for the named backbone. */
  datatype SmBuild<X> = SmBuild(model: SmModel, trainInput: X, testInput: X, preprocessedFor: string)

  /** build_sm_model: the inputs are preprocessed for the backbone the name
      resolves to, which is the very backbone get_sm_model builds the model on
      (segmentation_models' preprocessing itself is the parameter `preprocess`). */
  function BuildSmModel<X>(backbone: string, xTrainRaw: X, xTestRaw: X, height: int, width: int,
                           numChannels: int, numClasses: int, preprocess: (string, X) -> X): (r: Result<SmBuild<X>>)
    ensures r.Err? <==> !MatchesAny(backbone)
    ensures r.Ok? ==> r.value.preprocessedFor == r.value.model.backbone
    ensures r.Ok? ==> r.value.trainInput == preprocess(r.value.preprocessedFor, xTrainRaw)
    ensures r.Ok? ==> r.value.testInput == preprocess(r.value.preprocessedFor, xTestRaw)
    ensures r.Ok? ==> GetSmModel(backbone, height, width, numChannels, numClasses) == Ok(r.value.model)
  {
    match GetTargetBackbone(backbone)
    case Err(e) => Err(e)
    case Ok(target) =>
      var xTrain, xTest := preprocess(target, xTrainRaw), preprocess(target, xTestRaw);
      match GetSmModel(backbone, height, width, numChannels, numClasses)
      case Err(e) => Err(e)
      case Ok(model) => Ok(SmBuild(model, xTrain, xTest, target))
  }
}
