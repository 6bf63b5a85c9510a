# Solar panel failure classifier — verified model of the results and configuration core

The system classifies solar-panel images with a pre-trained convolutional
network (transfer learning in Keras) and reports the outcome. Below the
framework calls sit two small pieces of deterministic logic, and this project
models them in Dafny.

* **`Results.compute`** (results.py) walks the zipped (image, true label,
  predicted label) triples. For each triple it appends a classification
  record, (image file name, predicted class name, folder path), and it
  increments one cell of a `len(labels) x len(labels)` confusion matrix in
  place. The accuracy it returns is the trace over the sum of that matrix.
  The rows and columns of the printed and saved matrix are labelled with the
  dictionary's class names sorted by class index.
* **The configuration side of `CNN`** (cnn.py):
  * the table from 13 architecture names to an input size and a
    preprocessing function;
  * the validation of the freeze count, and the loop that sets the
    `trainable` flag of the selected layers to False;
  * the threshold that turns scores into labels in `predict`;
  * the recovery of the architecture name from the file name in `load`.

Files:

| file | module | contents |
|---|---|---|
| wrappers.dfy | `Wrappers` | `Option`, `Result` |
| labels.dfy | `LabelDicts` | the label dictionary, its inverse lookup, the index-sorted label order |
| paths.dfy | `Paths` | `os.path.join`, `basename`, `dirname` (POSIX) and the folder-path normalisation |
| confusion.dfy | `Confusion` | what `compute` computes, as functions, and the counting properties |
| results.dfy | `Results` | the `Results` class; `compute` as a loop over a 2-D array, proved against `Confusion` |
| cnn.dfy | `Cnn` | the attribute table, freeze policy and freeze loop, threshold, name prefix; the `Cnn` class |

How the pieces fit:

* **`compute`.** `Results.Results.Compute` allocates a zero `array2<nat>` and
  runs `Results.Tabulate`. That loop performs one `Results.Visit` per triple,
  and `Visit` increments one cell in place. The loop invariant ties the
  array to the multiset of cells incremented so far, and the outcomes so far
  to `Confusion.Scan`.
* **Success and failure.** `Confusion.LoopSucceeds` and
  `Confusion.LoopFails` state when `compute` raises, and which error it
  raises: a `KeyError` from the inverse lookup, or an `IndexError` from
  numpy's indexing, which also accepts negative indices.
* **The counts.** The counting facts are proved about `Confusion.Tally`:
  * the total is the number of triples processed;
  * the trace is the number of correct predictions;
  * the accuracy is 1 exactly when every prediction is correct, which is
    exactly when the matrix is diagonal.
* **The freeze step.** `Cnn.Cnn.InitializeBaseModel` mutates an
  `array<bool>` of `trainable` flags with `Cnn.FreezeLayers`, which is proved
  against `Cnn.Frozen`.

### The ten-image example

Two classes, A (index 0) and B (index 1). Six images are of class A and four
of class B. The predictions are A, A, A, A, A, B, B, B, B, A.

`Results.TwoClassScenario` proves that `compute` succeeds on this input,
that the matrix is [[5, 1], [1, 3]], and that the accuracy is 0.8.

The last image is a B predicted as A, so it lands in cell (1, 0).

## Model

| member | source | states |
|---|---|---|
| LabelDicts.Descriptions | results.py:42 | an index has a description exactly when some dictionary entry carries that index |
| LabelDicts.DescriptionIsLastEntry | results.py:42 | the description of an index is the name of the last entry carrying it; later entries overwrite earlier ones in the comprehension |
| LabelDicts.DescriptionOfIndex | results.py:42 | with unique indices the inverse lookup is exact: (name, v) is an entry iff v maps back to name |
| LabelDicts.SortByIndex | results.py:70 | `sorted(..., key=lambda x: x[1])`: the result is sorted by index, is a permutation (same multiset) of the entries, and is stable: for every index, the entries carrying it keep the order they had in the dictionary |
| LabelDicts.LabelOrder | results.py:70 | one label per class; the labels are the dictionary's names, each as often as in the dictionary (so each once), and their indices `labels[name]` never decrease along the list |
| LabelDicts.LabelOrderFollowsIndices | results.py:70 | when the indices are 0..n-1 without repetition, the label of row/column i is the description of index i, so the printed labels match the matrix positions `compute` fills |
| Paths.LastSlashShape | results.py:47-48 | `rfind('/')`: the position is -1 or holds a '/', and no '/' follows it |
| Paths.JoinShape | results.py:46 | `os.path.join`: an absolute second part is the result; otherwise the result is the first part, then one '/' exactly when the first part is non-empty and does not end with '/', then the second part |
| Paths.BasenameShape | results.py:48 | `os.path.basename`: the file name holds no '/', is a suffix of the path, and is the whole path or preceded by a '/' |
| Paths.BasenameOfSplit | results.py:48 | the base name of `a/b` is b when b holds no '/' |
| Paths.DirnameShape | results.py:47 | `os.path.dirname`: a prefix of the path followed only by '/' characters up to the base name; empty iff the path holds no '/'; it ends with '/' only when it is the root, made of '/' alone and reaching up to the base name |
| Paths.DirnameOfSplit | results.py:47 | the directory of `a/b` is a when b holds no '/' and a is non-empty without a trailing '/' |
| Paths.ReplaceBackslashesShape | results.py:47 | `replace("\\","/")` keeps the length, turns every backslash into '/', keeps every other character, and so leaves no backslash |
| Paths.FolderPathShape | results.py:46-47 | the folder path (dirname of the joined path, backslashes replaced, '/' appended): every folder path ends with '/' and holds no backslash |
| Paths.FolderOfClassFile | results.py:46-48 | for an image `category/file` under a test directory, the record holds `file` and the folder `testDir/category/` |
| Confusion.AxisIndex | results.py:49 | a numpy index is valid iff it lies in [-n, n); the position it selects is below n and equals i or i + n |
| Confusion.CellOf | results.py:48-49 | an undescribed predicted index raises KeyError first; otherwise an invalid true index raises IndexError on axis 0, then an invalid predicted index IndexError on axis 1; a pair passes iff none of these applies, and it selects cell (t, p) with a negative index counting from the end (t + n, p + n) |
| Confusion.Zip | results.py:45 | `zip` stops at the shortest argument: its length is at most each input's and equals one of them, and position j holds the j-th of each |
| Confusion.Step | results.py:46-49 | a pass that raises nothing increments a cell inside the n x n matrix |
| Confusion.Steps | results.py:45-49 | one loop-body outcome per triple |
| Confusion.ScanSucceeds | results.py:45-49 | `Scan`, the loop over the outcomes: the loop gets through k passes iff none raises; it then holds each pass's cell and record, in input order |
| Confusion.ScanFails | results.py:45-49 | `Scan`: a failing loop raises the error of the first pass that raises |
| Confusion.FailureSticks | results.py:45-49 | an exception ends the loop: every longer prefix gives the same error |
| Confusion.StepAt | results.py:46-49 | the j-th outcome is the checks of the j-th pair and, when they pass, the j-th cell and record |
| Confusion.LoopSucceeds | results.py:45-49 | `Loop`, the loop of `compute` on the zipped inputs: `compute` raises nothing iff every processed pair passes its checks; then there is one cell per processed triple, and the records are those of the triples in input order |
| Confusion.LoopFails | results.py:45-49 | `Loop`: otherwise the error is that of the first pair failing its checks, all earlier pairs passing |
| Confusion.ScanOfValidPairs | results.py:45-49 | with every index in 0..n-1 and described, no error is raised and the cells are exactly the (true, predicted) pairs, so cell (t, p) counts the positions with true t and predicted p |
| Confusion.Tally | results.py:37-38 | the confusion matrix is n x n |
| Confusion.TallyLast | results.py:49 | each processed pair adds one to exactly its own cell; all other cells stay as they were |
| Confusion.TotalZeros | results.py:37-38 | `np.sum` of the zero matrix is 0 |
| Confusion.TotalIncrement | results.py:49 | incrementing one cell raises `np.sum` of the matrix by exactly one |
| Confusion.TallyTotal | results.py:45-49 | `Total` (`np.sum`) of the tally: the sum of all cells equals the number of triples processed |
| Confusion.TallyTrace | results.py:51 | `Trace` (`np.trace`) of the tally: the trace equals the number of correct predictions |
| Confusion.HitsAtMost | results.py:51 | correct predictions are at most the triples processed, with equality iff every prediction equals its true label |
| Confusion.AccuracyOfTally | results.py:51 | `Accuracy` of the tally: accuracy is correct / processed, in [0, 1], and NaN (0.0 / 0.0) when nothing was processed |
| Confusion.PerfectIffAllCorrect | results.py:51 | accuracy is 1 iff every prediction equals its true label |
| Confusion.PerfectIffDiagonal | results.py:51 | accuracy is 1 iff every off-diagonal cell is 0 |
| Confusion.RecordNames | results.py:48 | a record names a class carrying the predicted index, a '/'-free suffix of the image path, and a '/'-terminated folder without backslashes |
| Confusion.RecordsName | results.py:45-48 | `RecordsOf`, the `classification` list: one record per processed triple, each shaped as `RecordNames` says |
| Results.RowsOfCounts | results.py:37-38 | a 2-D array whose every cell holds the multiplicity of its position among the cells has the rows of `Tally` |
| Results.Visit | results.py:46-49 | one pass in place: the loop's outcome extends by this triple's outcome, and after success every cell still counts its position among the cells incremented |
| Results.Tabulate | results.py:45-50 | from a zero matrix the loop ends with exactly the outcome `Scan` gives for all triples, and on success every cell (t, p) counts the incremented cells equal to (t, p) |
| Results.Results.constructor | results.py:11-20 | the object keeps the label dictionary and the dataset name |
| Results.Results.Compute | results.py:22-53 | `compute` raises iff the loop raises, with the same error; otherwise the matrix is a fresh len(labels) x len(labels) array equal to the tally of the processed pairs, the accuracy is its trace over its total, and the records are the loop's, in order |
| Results.ScenarioCells | results.py:45-49 | on the ten-image example no error is raised, and the cells are the ten (true, predicted) pairs |
| Results.ScenarioTally | results.py:49 | those pairs give the matrix [[5, 1], [1, 3]] |
| Results.ScenarioAccuracy | results.py:51 | that matrix has accuracy 0.8 |
| Results.TwoClassScenario | results.py:22-53 | the ten-image example: success, matrix [[5, 1], [1, 3]], accuracy 0.8 |
| Cnn.AttributesOf | cnn.py:252-295 | the table is defined exactly for the 13 names the ValueError message lists; any other name raises ValueError |
| Cnn.TargetSizes | cnn.py:259-291 | square inputs: 299 for InceptionResNetV2, InceptionV3 and Xception; 331 for NASNetLarge; 224 for the other nine names |
| Cnn.SharedPreprocessing | cnn.py:259-291 | two supported names share a preprocessing function iff they are equal, both DenseNets or both NASNets |
| Cnn.SliceStop | cnn.py:245 | the slice `[:stop]` keeps the first stop elements (all when there are fewer); a negative stop drops the last -stop elements (all when there are fewer) |
| Cnn.FreezeSpan | cnn.py:239-247 | a span is chosen iff the count is an int (exactly, not a bool) and non-negative, and it never exceeds the layer count |
| Cnn.Frozen | cnn.py:249-250 | after freezing the first k layers, layer j is trainable iff j >= k and it was trainable |
| Cnn.FreezePolicy | cnn.py:239-250 | a non-int raises TypeError and a negative int ValueError. A count of 0 freezes every layer. A count n > 0 freezes every layer except the last n, which keep their flag, so nothing changes when n >= len(layers). No layer is ever made trainable |
| Cnn.FreezeLayers | cnn.py:249-250 | the loop over the array leaves exactly `Frozen` of the old flags |
| Cnn.Threshold | cnn.py:164 | one label per score, in order: 1 iff score >= threshold, 0 iff score < threshold, so a score equal to the threshold gives 1 |
| Cnn.ThresholdMonotone | cnn.py:164 | a higher score never gets a lower label, and raising the threshold never raises a label |
| Cnn.PredictThenCompute | cnn.py:164-169 | with a dictionary indexed 0..n-1 (n >= 2) and valid true labels, `compute` on the thresholded predictions raises nothing and tallies the (true, predicted) pairs |
| Cnn.NamePrefix | cnn.py:189 | `split("_")[0]`: a '_'-free prefix of the file name that is all of it or is followed by '_' |
| Cnn.SaveName | main.py:20 | the save name starts with the architecture name followed by '_', and is three '_' longer than its four parts |
| Cnn.NamePrefixOfSaveName | main.py:20-26 | the prefix of `f'{bm}_{epochs}_{lr}_{beta_1}'` is bm whenever bm holds no '_' |
| Cnn.SupportedNamesHaveNoUnderscore | cnn.py:259-291 | no supported name contains '_' |
| Cnn.LoadRestoresAttributes | cnn.py:189-190 | loading a model saved under main.py's naming convention restores the size and preprocessing of its architecture |
| Cnn.MainScriptName | main.py:14-26 | main.py's `ResNet50_70_0.01_0.3` loads as ResNet50 with 224 x 224 inputs |
| Cnn.Cnn.constructor | cnn.py:34-39 | a new object has an empty name and no model, size or preprocessing |
| Cnn.Cnn.InitializeAttributes | cnn.py:252-295 | sets size and preprocessing from the table; an unknown name raises ValueError and leaves them as they were |
| Cnn.Cnn.InitializeBaseModel | cnn.py:206-250 | the name is stored first. An unknown name raises ValueError before any network is built. Otherwise the network becomes the model and its input shape is (h, w, 3). A TypeError or ValueError from the count leaves every layer as built; any other count freezes the span `FreezeSpan` selects |
| Cnn.Cnn.Load | cnn.py:176-190 | the loaded network becomes the model; the name becomes the file name's prefix and the table is consulted again, so an unknown prefix raises ValueError |

## Left out

- TensorFlow/Keras stays outside the model. That covers building networks
  and downloading weights (cnn.py:235-236), `load_model` (cnn.py:184),
  `model.predict` (cnn.py:162) and the data generators (cnn.py:64-90,
  151-159). It also covers the output layers (cnn.py:297-320), compile and
  fit in `train` (cnn.py:41-137), the plots (cnn.py:322-354) and `save`
  (cnn.py:192-204). Networks appear only as arrays of `trainable` flags,
  passed in as parameters, and scores as a sequence of reals.
- The preprocessing functions are tags naming the Keras module they come
  from, not functions.
- `train` calls `_initialize_base_model` and is left out with the rest of
  Keras. The `include_top` and `pooling` arguments of
  `_initialize_base_model` only reach Keras, so the model drops them.
- `Results.print` (results.py:55-81) and `Results.save`
  (results.py:83-111) are console and Excel output. Their label order
  (results.py:70, 95) is modelled. The `1 - probability` column and the
  file name built from the current date and time are not.
- main.py is a script. Only its save-name convention (main.py:20, 26) is
  modelled.
- transform_color_space.py (OpenCV edge detection on files) is not part of
  this model.
- `os.path` is modelled as `posixpath`. On Windows `ntpath` also treats
  '\\' as a separator, which the model does not capture.
- Results.Results.Compute: the matrix holds unbounded natural counts where
  numpy holds float64. The accuracy is the exact rational ratio, not a
  rounded float. NaN stands for numpy's 0.0 / 0.0.
- Results.Results.Compute: when an exception is raised, Python drops the
  partially filled matrix and list. The model returns the error with
  whatever the array holds, and states nothing about it.
- Cnn.Threshold: the scores are reals. A NaN score, which compares False
  and would get label 0, is not modelled. The (N, 1) array Keras returns is
  read as one score per image.
- Cnn.NamePrefixOfSaveName: the epoch count, learning rate and beta_1 are
  taken as the strings Python's f-string formatting produces. That
  formatting is not modelled, and the round trip does not depend on it.
- Python arguments are modelled by the `PyValue` datatype, which tells
  apart only int, bool and "other". The test `type(x) != int` separates an
  exact int from everything else; bool is kept apart because it is the
  subclass of int that this test still rejects.
- Label dictionaries are sequences of (name, index) entries with distinct
  names, in insertion order, which is how a Python dict behaves. `sorted`
  is stable; `LabelDicts.SortByIndex` is an insertion sort, and its
  contract states that stability.
