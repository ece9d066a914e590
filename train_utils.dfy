/** Helpers of train_utils around training: the output file name of a run,
    the optimizer and loss that compile_custom chooses from their names, the
    metric dictionaries read off a Keras training history, and the title of
    the prediction panel. Keras, matplotlib and the file writes themselves are
    outside the model. */
module TrainUtils {
  import opened Wrappers
  import opened Text

  /** The names train_utils binds at module level: its imports and its
      functions. An attribute lookup `train_utils.<name>` fails with
      AttributeError for any other name. */
  const ModuleNames: set<string> := {
    "np", "plt", "pickle", "pathlib", "redirect_stdout", "Adam", "RMSprop",
    "categorical_crossentropy", "binary_crossentropy", "Recall", "Precision",
    "FalseNegatives", "FalsePositives", "TrueNegatives", "TruePositives", "sm", "date",
    "roc_curve", "auc", "savemat", "plot_model", "mkdir", "join", "hsi_utils",
    "get_model_filename", "save_model_summary", "save_model_graph", "save_text",
    "save_model_info", "get_compile_settings", "compile_and_save_structure",
    "compile_custom", "fit_model", "plot_history", "visualize", "plot_roc",
    "calc_plot_roc", "get_eval_metrics", "get_eval_metrics_and_settings",
    "evaluate_model", "save_evaluate_model", "save_evaluate_model_folds", "save_performance"
  }

  // ---------------------------------------------------------------------------
  // get_model_filename

  /** The fixed output root of get_model_filename. */
  const OutputRoot := "/home/nfs/ealoupogianni/mspi/output/"

  /** os.path.join of two POSIX paths: an absolute second part replaces the
      first, otherwise a separator is put between them unless the first is
      empty or already ends with one. */
  function PosixJoin(a: string, b: string): (r: string)
    ensures |b| > 0 && b[0] == '/' ==> r == b
    ensures !(|b| > 0 && b[0] == '/') && |a| > 0 && a[|a| - 1] != '/' ==> r == a + "/" + b
    ensures !(|b| > 0 && b[0] == '/') && (|a| == 0 || a[|a| - 1] == '/') ==> r == a + b
  {
    if |b| > 0 && b[0] == '/' then b
    else if |a| == 0 || a[|a| - 1] == '/' then a + b
    else a + "/" + b
  }

  /** A path component that joins without surprises: not empty, not absolute
      and without a trailing separator. */
  predicate PlainComponent(c: string) {
    |c| > 0 && c[0] != '/' && c[|c| - 1] != '/'
  }

  /** The file part of the name: the run date and an underscore lead it only
      when no folder is given. */
  function ModelName(suffix: string, extension: string, folder: Option<string>, today: string): (name: string)
    ensures folder.None? ==> name == today + "_" + suffix + "." + extension
    ensures folder.Some? ==> name == suffix + "." + extension
  {
    (if folder.None? then today + "_" else "") + suffix + "." + extension
  }

  /** The directories that exist, as far as mkdir is concerned. */
  class Disk {
    var dirs: set<string>

    constructor (dirs0: set<string>)
      ensures dirs == dirs0
    {
      dirs := dirs0;
    }

    /** os.mkdir whose OSError is swallowed: the directory is created only when
        its parent exists and it does not exist yet, and nothing happens
        otherwise. */
    method MakeDir(parent: string, path: string)
      modifies this
      ensures dirs == if parent in old(dirs) then old(dirs) + {path} else old(dirs)
    {
      if parent in dirs && path !in dirs {
        dirs := dirs + {path};
      }
    }
  }

  /** get_model_filename: the save directory is the output root, the data set
      and the test folder named in the configuration, and the given folder if
      any; it is created when its parent exists, and the file name is joined
      under it. The date is the parameter `today` (str(date.today())). */
  method GetModelFilename(disk: Disk, suffix: string, extension: string, folder: Option<string>,
                          today: string, dataset: string, testFolder: string) returns (filename: string)
    modifies disk
    ensures filename == PosixJoin(SaveDir(dataset, testFolder, folder), ModelName(suffix, extension, folder, today))
    ensures disk.dirs == if SaveDirParent(dataset, testFolder, folder) in old(disk.dirs)
                         then old(disk.dirs) + {SaveDir(dataset, testFolder, folder)} else old(disk.dirs)
  {
    var modelName := "";
    if folder.None? {
      modelName := today + "_";
    }
    var savedir := PosixJoin(PosixJoin(OutputRoot, dataset), testFolder);
    var parent := PosixJoin(OutputRoot, dataset);
    if folder.Some? {
      parent := savedir;
      savedir := PosixJoin(savedir, folder.value);
    }
    disk.MakeDir(parent, savedir);
    filename := PosixJoin(savedir, modelName + suffix + "." + extension);
  }

  function SaveDir(dataset: string, testFolder: string, folder: Option<string>): string {
    var base := PosixJoin(PosixJoin(OutputRoot, dataset), testFolder);
    if folder.Some? then PosixJoin(base, folder.value) else base
  }

  function SaveDirParent(dataset: string, testFolder: string, folder: Option<string>): string {
    if folder.Some? then PosixJoin(PosixJoin(OutputRoot, dataset), testFolder) else PosixJoin(OutputRoot, dataset)
  }

  /** With plain components, the file sits at
      root/dataset/testFolder[/folder]/[date_]suffix.extension. */
  lemma ModelFilenameShape(suffix: string, extension: string, folder: Option<string>,
                           today: string, dataset: string, testFolder: string)
    requires PlainComponent(dataset) && PlainComponent(testFolder)
    requires folder.Some? ==> PlainComponent(folder.value)
    requires |today| == 0 || today[0] != '/'
    requires |suffix| == 0 || suffix[0] != '/'
    ensures PosixJoin(SaveDir(dataset, testFolder, folder), ModelName(suffix, extension, folder, today))
         == OutputRoot + dataset + "/" + testFolder
            + (if folder.Some? then "/" + folder.value else "")
            + "/" + ModelName(suffix, extension, folder, today)
  {
    var name := ModelName(suffix, extension, folder, today);
    assert |name| > 0 && name[0] != '/' by {
      if folder.None? {
        if |today| > 0 { assert name[0] == today[0]; }
        else { assert name[0] == '_'; }
      } else {
        if |suffix| > 0 { assert name[0] == suffix[0]; }
        else { assert name[0] == '.'; }
      }
    }
    var d1 := OutputRoot + dataset;
    assert PosixJoin(OutputRoot, dataset) == d1;
    var d2 := d1 + "/" + testFolder;
    assert d1[|d1| - 1] == dataset[|dataset| - 1];
    assert PosixJoin(d1, testFolder) == d2;
    assert d2[|d2| - 1] == testFolder[|testFolder| - 1];
    if folder.Some? {
      var d3 := d2 + "/" + folder.value;
      assert PosixJoin(d2, folder.value) == d3;
      assert d3[|d3| - 1] == folder.value[|folder.value| - 1];
      assert PosixJoin(d3, name) == d3 + "/" + name;
    } else {
      assert PosixJoin(d2, name) == d2 + "/" + name;
    }
  }

  // ---------------------------------------------------------------------------
  // compile_custom

  datatype OptimizerKind = Adam | RMSprop

  /** A Keras optimizer as constructed: its learning rate, and the decay when
      it is passed to the constructor at all. */
  datatype Optimizer = Optimizer(kind: OptimizerKind, learningRate: real, decay: Option<real>)

  datatype Loss = BceJaccard | BinaryCrossentropy

  datatype Compiled = Compiled(optimizer: Optimizer, loss: Loss)

  const DefaultOptimizerName := "Adam"
  const DefaultLearningRate: real := 0.0001
  const DefaultDecay: real := 0.000001
  const DefaultLossName := "BCE+JC"

  /** The optimizer and loss compile_custom hands to compile_and_save_structure. */
  function CompileCustom(optimizerName: string, learningRate: real, decay: real, lossFunction: string): (c: Compiled)
    ensures c.optimizer.kind == RMSprop <==> optimizerName == "RMSProp"
    ensures c.optimizer.learningRate == learningRate
    ensures c.optimizer.decay.Some? <==> (optimizerName == "Adam" || optimizerName == "RMSProp") && decay == 0.0
    ensures c.optimizer.decay.Some? ==> c.optimizer.decay.value == 0.0
    ensures c.loss == BinaryCrossentropy <==> lossFunction == "BCE"
  {
    var optimizer :=
      if optimizerName == "Adam" then
        (if decay == 0.0 then Optimizer(Adam, learningRate, Some(decay)) else Optimizer(Adam, learningRate, None))
      else if optimizerName == "RMSProp" then
        (if decay == 0.0 then Optimizer(RMSprop, learningRate, Some(decay)) else Optimizer(RMSprop, learningRate, None))
      else Optimizer(Adam, learningRate, None);
    var loss :=
      if lossFunction == "BCE+JC" then BceJaccard
      else if lossFunction == "BCE" then BinaryCrossentropy
      else BceJaccard;
    Compiled(optimizer, loss)
  }

  /** With its default arguments compile_custom builds Adam at 1e-4 without a
      decay (the default decay is not zero) and the BCE+Jaccard loss. */
  lemma CompileCustomDefaults()
    ensures CompileCustom(DefaultOptimizerName, DefaultLearningRate, DefaultDecay, DefaultLossName)
         == Compiled(Optimizer(Adam, 0.0001, None), BceJaccard)
  {
  }

  // ---------------------------------------------------------------------------
  // get_eval_metrics and get_eval_metrics_and_settings

  const MetricNames: seq<string> := ["accuracy", "iou_score", "precision", "recall",
                                     "false_positives", "false_negatives", "true_positives", "true_negatives"]

  const ValidationPrefix := "val_"

  /** The history key of a metric: the name itself, or "val_" and the name. */
  function KeyFor(isValidation: bool, metric: string): string {
    if isValidation then ValidationPrefix + metric else metric
  }

  function TargetKeys(isValidation: bool): (keys: seq<string>)
    ensures |keys| == |MetricNames|
    ensures forall j :: 0 <= j < |keys| ==> keys[j] == KeyFor(isValidation, MetricNames[j])
  {
    seq(|MetricNames|, j requires 0 <= j < |MetricNames| => KeyFor(isValidation, MetricNames[j]))
  }

  function Last<V>(xs: seq<V>): V
    requires |xs| > 0
  {
    xs[|xs| - 1]
  }

  /** `{x: history[x][-1] for x in keys}`: the keys are looked up in order, so
      the first key that is missing raises KeyError and the first whose list is
      empty raises IndexError. */
  function LastOfEach<V>(history: map<string, seq<V>>, keys: seq<string>): (r: Result<map<string, V>>)
    ensures r.Ok? <==> forall k :: k in keys ==> k in history && |history[k]| > 0
    ensures r.Ok? ==> r.value.Keys == set k | k in keys
    ensures r.Ok? ==> forall k :: k in r.value ==> k in history && |history[k]| > 0 && r.value[k] == Last(history[k])
    ensures r.Err? && (forall k :: k in keys ==> k in history) ==> r.error == IndexError
    ensures r.Err? && (forall k :: k in keys && k in history ==> |history[k]| > 0) ==> r.error == KeyError
    decreases |keys|
  {
    if |keys| == 0 then Ok(map[])
    else if keys[0] !in history then Err(KeyError)
    else if |history[keys[0]]| == 0 then Err(IndexError)
    else
      match LastOfEach(history, keys[1..])
      case Err(e) => Err(e)
      case Ok(m) => Ok(m[keys[0] := Last(history[keys[0]])])
  }

  lemma TargetKeysMembers(isValidation: bool)
    ensures forall x :: x in TargetKeys(isValidation) <==> exists k :: k in MetricNames && x == KeyFor(isValidation, k)
  {
    var keys := TargetKeys(isValidation);
    forall x | x in keys ensures exists k :: k in MetricNames && x == KeyFor(isValidation, k) {
      var j :| 0 <= j < |keys| && keys[j] == x;
      assert MetricNames[j] in MetricNames;
    }
    forall k | k in MetricNames ensures KeyFor(isValidation, k) in keys {
      var j :| 0 <= j < |MetricNames| && MetricNames[j] == k;
      assert keys[j] == KeyFor(isValidation, k);
    }
  }

  /** get_eval_metrics: the eight metric names, each carrying the prefix
      "val_" when the validation figures are asked for, mapped to the last
      entry of their history. */
  function GetEvalMetrics<V>(history: map<string, seq<V>>, isValidation: bool): (r: Result<map<string, V>>)
    ensures r.Ok? <==> forall k :: k in MetricNames ==> KeyFor(isValidation, k) in history && |history[KeyFor(isValidation, k)]| > 0
    ensures r.Ok? ==> r.value.Keys == set k | k in MetricNames :: KeyFor(isValidation, k)
    ensures r.Ok? ==> forall k :: k in r.value ==> k in history && |history[k]| > 0 && r.value[k] == Last(history[k])
  {
    TargetKeysMembers(isValidation);
    LastOfEach(history, TargetKeys(isValidation))
  }

  /** A value of the dictionary get_eval_metrics_and_settings returns. */
  datatype Setting<V> = Metric(value: V) | Name(name: string) | Number(number: real)

  const SettingNames: seq<string> := ["optimizer", "learningRate", "decay", "lossFunction"]

  /** get_eval_metrics_and_settings: the metric dictionary, to which the four
      settings are then added one key at a time. */
  method GetEvalMetricsAndSettings<V>(history: map<string, seq<V>>, isValidation: bool,
                                      optz: string, lr: real, ed: real, lossFun: string)
    returns (r: Result<map<string, Setting<V>>>)
    ensures r.Ok? <==> GetEvalMetrics(history, isValidation).Ok?
    ensures r.Err? ==> r.error == GetEvalMetrics(history, isValidation).error
    ensures r.Ok? ==> r.value.Keys == GetEvalMetrics(history, isValidation).value.Keys
                                      + {"optimizer", "learningRate", "decay", "lossFunction"}
    ensures r.Ok? ==> forall k :: k in GetEvalMetrics(history, isValidation).value ==>
                          r.value[k] == Metric(GetEvalMetrics(history, isValidation).value[k])
    ensures r.Ok? ==> (r.value["optimizer"] == Name(optz) && r.value["learningRate"] == Number(lr)
                       && r.value["decay"] == Number(ed) && r.value["lossFunction"] == Name(lossFun))
  {
    var metrics := GetEvalMetrics(history, isValidation);
    if metrics.Err? {
      return Err(metrics.error);
    }
    var m := metrics.value;
    SettingKeysFresh(m, isValidation);
    var evalDict := AddSettings(m, optz, lr, ed, lossFun);
    r := Ok(evalDict);
  }

  /** The metric dictionary with the four settings added one key at a time. */
  method AddSettings<V>(m: map<string, V>, optz: string, lr: real, ed: real, lossFun: string)
    returns (evalDict: map<string, Setting<V>>)
    requires "optimizer" !in m && "learningRate" !in m && "decay" !in m && "lossFunction" !in m
    ensures evalDict.Keys == m.Keys + {"optimizer", "learningRate", "decay", "lossFunction"}
    ensures forall k :: k in m ==> evalDict[k] == Metric(m[k])
    ensures evalDict["optimizer"] == Name(optz) && evalDict["learningRate"] == Number(lr)
    ensures evalDict["decay"] == Number(ed) && evalDict["lossFunction"] == Name(lossFun)
  {
    SettingNamesDistinct();
    evalDict := map k | k in m :: Metric(m[k]);
    assert evalDict.Keys == m.Keys;
    evalDict := evalDict["optimizer" := Name(optz)];
    evalDict := evalDict["learningRate" := Number(lr)];
    evalDict := evalDict["decay" := Number(ed)];
    evalDict := evalDict["lossFunction" := Name(lossFun)];
  }

  lemma SettingNamesDistinct()
    ensures "optimizer" != "learningRate" && "optimizer" != "decay" && "optimizer" != "lossFunction"
    ensures "learningRate" != "decay" && "learningRate" != "lossFunction" && "decay" != "lossFunction"
  {
    assert "learningRate"[1] != "lossFunction"[1];
  }

  lemma SettingKeysFresh<V>(m: map<string, V>, isValidation: bool)
    requires m.Keys == set k | k in MetricNames :: KeyFor(isValidation, k)
    ensures "optimizer" !in m && "learningRate" !in m && "decay" !in m && "lossFunction" !in m
  {
    SettingsAreNotMetrics(isValidation);
    forall s | s in SettingNames
      ensures s !in m
    {
      assert forall k :: k in MetricNames ==> s != KeyFor(isValidation, k);
    }
    assert SettingNames[0] == "optimizer" && SettingNames[1] == "learningRate";
    assert SettingNames[2] == "decay" && SettingNames[3] == "lossFunction";
  }

  /** None of the four setting names is a metric key, so adding the settings
      overwrites no metric. */
  lemma SettingsAreNotMetrics(isValidation: bool)
    ensures forall s, k :: s in SettingNames && k in MetricNames ==> s != KeyFor(isValidation, k)
  {
    forall s, k | s in SettingNames && k in MetricNames ensures s != KeyFor(isValidation, k) {
      assert s[0] in "old";
      assert KeyFor(isValidation, k)[0] in "vaiprft";
    }
  }

  // ---------------------------------------------------------------------------
  // visualize

  /** The title of the prediction panel of visualize; `iou` is the text str()
      gives for the score. */
  function PredictionTitle(iou: Option<string>): (title: string)
    ensures iou.None? ==> title == "Prediction"
    ensures iou.Some? ==> title == "Prediction (" + iou.value + "%)"
  {
    if iou.None? then "Prediction" else "Prediction (" + iou.value + "%)"
  }

  /** Every title starts with "Prediction", and it is exactly "Prediction"
      when and only when there is no score. */
  lemma PredictionTitleShape(iou: Option<string>)
    ensures IsPrefix("Prediction", PredictionTitle(iou))
    ensures PredictionTitle(iou) == "Prediction" <==> iou.None?
    ensures iou.Some? ==> Contains(PredictionTitle(iou), iou.value)
  {
    var t := PredictionTitle(iou);
    assert t[..10] == "Prediction";
    if iou.Some? {
      assert |t| > 10;
      assert t[12..12 + |iou.value|] == iou.value;
      OccursContains(t, iou.value, 12);
    }
  }
}
