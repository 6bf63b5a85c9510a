/**
 * cnn.py: the configuration side of the `CNN` class. A base architecture name
 * selects an input resolution and a preprocessing function; a freeze count
 * selects which layers of the base network stop training; `predict` turns
 * scores into class indices with a threshold; `load` recovers the
 * architecture name from the file name the model was saved under.
 *
 * The Keras networks are abstracted to the `trainable` flags of their layers,
 * an array the class mutates in place; the preprocessing functions are tags.
 */
module Cnn {
  import opened Wrappers
  import opened LabelDicts
  import opened Confusion

  /** The two exceptions the configuration code raises. */
  datatype CnnError = TypeError | ValueError

  /** The Keras module whose `preprocess_input` a network uses. */
  datatype Preprocessing =
    | DenseNet | InceptionResNetV2 | InceptionV3 | MobileNet | MobileNetV2
    | NASNet | ResNet50 | VGG16 | VGG19 | Xception

  /** (height, width) of the input images. */
  type Size = (nat, nat)

  /** (height, width, channels) handed to the Keras constructor. */
  type Shape = (nat, nat, nat)

  datatype Attributes = Attributes(targetSize: Size, preprocessing: Preprocessing)

  /** The names the error message of `_initialize_attributes` lists as possible values. */
  const SupportedModels: set<string> := {
    "DenseNet121", "DenseNet169", "DenseNet201", "InceptionResNetV2", "InceptionV3",
    "MobileNet", "MobileNetV2", "NASNetLarge", "NASNetMobile", "ResNet50", "VGG16",
    "VGG19", "Xception"
  }

  /** The if/elif table of `_initialize_attributes`; None where it raises ValueError. */
  function AttributesOf(name: string): (r: Option<Attributes>)
    ensures r.Some? <==> name in SupportedModels
  {
    if name in {"DenseNet121", "DenseNet169", "DenseNet201"} then Some(Attributes((224, 224), DenseNet))
    else if name == "InceptionResNetV2" then Some(Attributes((299, 299), InceptionResNetV2))
    else if name == "InceptionV3" then Some(Attributes((299, 299), InceptionV3))
    else if name == "MobileNet" then Some(Attributes((224, 224), MobileNet))
    else if name == "MobileNetV2" then Some(Attributes((224, 224), MobileNetV2))
    else if name == "NASNetLarge" then Some(Attributes((331, 331), NASNet))
    else if name == "NASNetMobile" then Some(Attributes((224, 224), NASNet))
    else if name == "ResNet50" then Some(Attributes((224, 224), ResNet50))
    else if name == "VGG16" then Some(Attributes((224, 224), VGG16))
    else if name == "VGG19" then Some(Attributes((224, 224), VGG19))
    else if name == "Xception" then Some(Attributes((299, 299), Xception))
    else None
  }

  /**
   * The images are square: 299 pixels for the Inception networks and
   * Xception, 331 for NASNetLarge and 224 for the nine other networks.
   */
  lemma TargetSizes(name: string)
    requires name in SupportedModels
    ensures var size := AttributesOf(name).value.targetSize;
            size.0 == size.1 &&
            (size.0 == 299 <==> name in {"InceptionResNetV2", "InceptionV3", "Xception"}) &&
            (size.0 == 331 <==> name == "NASNetLarge") &&
            (size.0 == 224 <==> name !in {"InceptionResNetV2", "InceptionV3", "Xception", "NASNetLarge"})
  {
  }

  /**
   * Two supported networks share a preprocessing function exactly when they
   * are the same network, both DenseNets or both NASNets.
   */
  lemma SharedPreprocessing(a: string, b: string)
    requires a in SupportedModels && b in SupportedModels
    ensures AttributesOf(a).value.preprocessing == AttributesOf(b).value.preprocessing <==>
            a == b ||
            (a in {"DenseNet121", "DenseNet169", "DenseNet201"} && b in {"DenseNet121", "DenseNet169", "DenseNet201"}) ||
            (a in {"NASNetLarge", "NASNetMobile"} && b in {"NASNetLarge", "NASNetMobile"})
  {
  }

  /** A Python argument as `type(x) != int` sees it: a bool or a float is not an int. */
  datatype PyValue = PyInt(value: int) | PyBool(flag: bool) | PyOther

  /**
   * The length of `s[:stop]` for a sequence of the given length: the first
   * `stop` elements (all of them when there are fewer), or, for a negative
   * stop, every element but the last `-stop` (none when there are fewer).
   */
  function SliceStop(length: nat, stop: int): (k: nat)
    ensures k <= length
    ensures stop >= 0 ==> k == stop || (k == length && length < stop)
    ensures stop < 0 ==> length - k == -stop || (k == 0 && length < -stop)
  {
    if stop >= 0 then (if stop < length then stop else length)
    else if length + stop > 0 then length + stop
    else 0
  }

  /**
   * The number of leading layers `_initialize_base_model` freezes for the
   * given count of trainable layers: all of them for 0, `layers[:-n]` for a
   * positive n; a non-int raises TypeError and a negative int ValueError.
   */
  function FreezeSpan(unfreezed: PyValue, layerCount: nat): (r: Result<nat, CnnError>)
    ensures r.Success? <==> unfreezed.PyInt? && unfreezed.value >= 0
    ensures r.Success? ==> r.value <= layerCount
  {
    match unfreezed
    case PyInt(n) =>
      if n == 0 then Success(layerCount)
      else if n > 0 then Success(SliceStop(layerCount, -n))
      else Failure(ValueError)
    case _ => Failure(TypeError)
  }

  /** The `trainable` flags after the first k layers are set to False. */
  function Frozen(flags: seq<bool>, k: nat): (r: seq<bool>)
    requires k <= |flags|
    ensures |r| == |flags|
    ensures forall j :: 0 <= j < |flags| ==> r[j] == (k <= j && flags[j])
  {
    seq(k, _ => false) + flags[k..]
  }

  /**
   * The freeze policy as a whole: the error cases, every layer frozen for a
   * count of 0, and for a positive n every layer frozen except the last n,
   * which keep their flag (so nothing changes when n reaches the layer count).
   * Freezing never makes a layer trainable.
   */
  lemma FreezePolicy(unfreezed: PyValue, flags: seq<bool>)
    ensures var r := FreezeSpan(unfreezed, |flags|);
            (!unfreezed.PyInt? ==> r == Failure(TypeError)) &&
            (unfreezed.PyInt? && unfreezed.value < 0 ==> r == Failure(ValueError)) &&
            (unfreezed == PyInt(0) ==> r.Success? && forall j :: 0 <= j < |flags| ==> !Frozen(flags, r.value)[j]) &&
            (unfreezed.PyInt? && unfreezed.value > 0 ==>
               r.Success? &&
               (forall j :: 0 <= j < |flags| ==>
                  Frozen(flags, r.value)[j] == (|flags| - unfreezed.value <= j && flags[j])) &&
               (unfreezed.value >= |flags| ==> Frozen(flags, r.value) == flags)) &&
            (r.Success? ==> forall j :: 0 <= j < |flags| && Frozen(flags, r.value)[j] ==> flags[j])
  {
  }

  /** `for layer in freezed_layers: layer.trainable = False` over the first k layers. */
  method FreezeLayers(layers: array<bool>, k: nat)
    requires k <= layers.Length
    modifies layers
    ensures layers[..] == Frozen(old(layers[..]), k)
  {
    for i := 0 to k
      invariant layers[..] == Frozen(old(layers[..]), i)
    {
      layers[i] := false;
    }
  }

  /**
   * `[1 if element >= threshold else 0 for element in predictions]`: one label
   * per score, in order; a score equal to the threshold gives 1.
   */
  function Threshold(scores: seq<real>, threshold: real): (labels: seq<int>)
    ensures |labels| == |scores|
    ensures forall i :: 0 <= i < |scores| ==>
              (labels[i] == 1 <==> scores[i] >= threshold) && (labels[i] == 0 <==> scores[i] < threshold)
  {
    seq(|scores|, i requires 0 <= i < |scores| => if scores[i] >= threshold then 1 else 0)
  }

  /** A higher score never gets a lower label, and a higher threshold never a higher one. */
  lemma ThresholdMonotone(scores: seq<real>, threshold: real, threshold': real)
    requires threshold <= threshold'
    ensures forall i, j :: 0 <= i < |scores| && 0 <= j < |scores| && scores[i] <= scores[j] ==>
              Threshold(scores, threshold)[i] <= Threshold(scores, threshold)[j]
    ensures forall i :: 0 <= i < |scores| ==> Threshold(scores, threshold')[i] <= Threshold(scores, threshold)[i]
  {
  }

  /**
   * `predict` then `compute`: on a dictionary whose indices are 0 .. n-1 with
   * n >= 2 and with true labels among them, the thresholded predictions never
   * make `compute` raise, and the tally is taken over the (true, predicted) pairs.
   */
  lemma PredictThenCompute(labels: LabelDict, testDir: string, dataset: seq<string>,
                           trueLabels: seq<int>, scores: seq<real>, threshold: real)
    requires UniqueIndices(labels)
    requires forall j :: 0 <= j < |labels| ==> 0 <= labels[j].1 < |labels|
    requires |labels| >= 2
    requires forall j :: 0 <= j < |trueLabels| ==> 0 <= trueLabels[j] < |labels|
    ensures var predicted := Threshold(scores, threshold);
            var r := Loop(labels, testDir, dataset, trueLabels, predicted);
            r.Success? && r.value.cells == Pairs(trueLabels, predicted, |Zip(dataset, trueLabels, predicted)|)
  {
    LabelOrderFollowsIndices(labels);
    ScanOfValidPairs(labels, testDir, dataset, trueLabels, Threshold(scores, threshold));
  }

  /** `filename.split("_")[0]`: everything before the first '_', or all of it. */
  function NamePrefix(filename: string): (r: string)
    ensures '_' !in r && |r| <= |filename| && r == filename[..|r|]
    ensures |r| < |filename| ==> filename[|r|] == '_'
  {
    if filename == [] || filename[0] == '_' then []
    else [filename[0]] + NamePrefix(filename[1..])
  }

  /** The file name main.py saves a model under: `f'{bm}_{epochs}_{lr}_{beta_1}'`. */
  function SaveName(bm: string, epochs: string, lr: string, beta1: string): (s: string)
    ensures |s| == |bm| + |epochs| + |lr| + |beta1| + 3
    ensures s[..|bm|] == bm && s[|bm|] == '_'
  {
    bm + "_" + epochs + "_" + lr + "_" + beta1
  }

  /** The name prefix recovers the architecture name whenever it holds no '_'. */
  lemma NamePrefixOfSaveName(bm: string, epochs: string, lr: string, beta1: string)
    requires '_' !in bm
    ensures NamePrefix(SaveName(bm, epochs, lr, beta1)) == bm
  {
  }

  lemma SupportedNamesHaveNoUnderscore(name: string)
    requires name in SupportedModels
    ensures '_' !in name
  {
  }

  /** Loading a model saved under main.py's convention restores the attributes it was trained with. */
  lemma LoadRestoresAttributes(bm: string, epochs: string, lr: string, beta1: string)
    requires bm in SupportedModels
    ensures AttributesOf(NamePrefix(SaveName(bm, epochs, lr, beta1))) == AttributesOf(bm)
  {
    SupportedNamesHaveNoUnderscore(bm);
    NamePrefixOfSaveName(bm, epochs, lr, beta1);
  }

  /** main.py's model, ResNet50 after 70 epochs with a learning rate of 0.01 and beta_1 0.3. */
  lemma MainScriptName()
    ensures NamePrefix(SaveName("ResNet50", "70", "0.01", "0.3")) == "ResNet50"
    ensures AttributesOf(NamePrefix(SaveName("ResNet50", "70", "0.01", "0.3"))) == Some(Attributes((224, 224), ResNet50))
  {
    NamePrefixOfSaveName("ResNet50", "70", "0.01", "0.3");
  }

  class Cnn {
    var modelName: string
    /** The `trainable` flags of the layers of `_model`; None while there is no model. */
    var model: Option<array<bool>>
    var targetSize: Option<Size>
    var preprocessing: Option<Preprocessing>

    constructor ()
      ensures modelName == "" && model == None && targetSize == None && preprocessing == None
    {
      modelName := "";
      model := None;
      targetSize := None;
      preprocessing := None;
    }

    /**
     * `_initialize_attributes`: the size and preprocessing of the current
     * name; an unknown name raises ValueError and leaves both as they were.
     */
    method InitializeAttributes() returns (error: Option<CnnError>)
      modifies this
      ensures modelName == old(modelName) && model == old(model)
      ensures match AttributesOf(modelName)
              case None =>
                error == Some(ValueError) &&
                targetSize == old(targetSize) && preprocessing == old(preprocessing)
              case Some(a) =>
                error == None && targetSize == Some(a.targetSize) && preprocessing == Some(a.preprocessing)
    {
      match AttributesOf(modelName)
      case None =>
        error := Some(ValueError);
      case Some(a) =>
        targetSize, preprocessing := Some(a.targetSize), Some(a.preprocessing);
        error := None;
    }

    /**
     * `_initialize_base_model`. `base` stands for the layers of the network
     * Keras builds for the name. The name is stored first; an unknown name
     * raises ValueError before any network is built; otherwise the network
     * becomes the model, its input shape is the target size with 3 channels,
     * and the freeze count is checked only then: TypeError or ValueError
     * leave every layer as built, anything else freezes the span FreezeSpan
     * selects.
     */
    method InitializeBaseModel(baseModel: string, unfreezed: PyValue, base: array<bool>)
      returns (error: Option<CnnError>, inputShape: Option<Shape>)
      modifies this, base
      ensures modelName == baseModel
      ensures match AttributesOf(baseModel)
              case None =>
                error == Some(ValueError) && inputShape == None && model == old(model) &&
                targetSize == old(targetSize) && preprocessing == old(preprocessing) &&
                base[..] == old(base[..])
              case Some(a) =>
                targetSize == Some(a.targetSize) && preprocessing == Some(a.preprocessing) &&
                inputShape == Some((a.targetSize.0, a.targetSize.1, 3)) && model == Some(base) &&
                match FreezeSpan(unfreezed, base.Length)
                case Failure(e) => error == Some(e) && base[..] == old(base[..])
                case Success(k) => error == None && base[..] == Frozen(old(base[..]), k)
    {
      modelName := baseModel;
      error := InitializeAttributes();
      if error.Some? {
        inputShape := None;
        return;
      }
      inputShape := Some((targetSize.value.0, targetSize.value.1, 3));
      model := Some(base);
      var span := FreezeSpan(unfreezed, base.Length);
      if span.Failure? {
        error := Some(span.error);
        return;
      }
      FreezeLayers(base, span.value);
    }

    /**
     * `load`: `loaded` stands for the network read from `filename + '.h5'`.
     * The name becomes the prefix of the file name, and the attributes are
     * looked up again, so an unknown prefix raises ValueError.
     */
    method Load(filename: string, loaded: array<bool>) returns (error: Option<CnnError>)
      modifies this
      ensures model == Some(loaded) && modelName == NamePrefix(filename)
      ensures match AttributesOf(NamePrefix(filename))
              case None =>
                error == Some(ValueError) &&
                targetSize == old(targetSize) && preprocessing == old(preprocessing)
              case Some(a) =>
                error == None && targetSize == Some(a.targetSize) && preprocessing == Some(a.preprocessing)
    {
      model := Some(loaded);
      modelName := NamePrefix(filename);
      error := InitializeAttributes();
    }
  }
}
