/**
 * What `Results.compute` computes, stated as functions: which cell each
 * (true, predicted) pair lands in, the error the first bad pair raises, the
 * confusion matrix as the multiplicity of each pair, the per-image records
 * and the accuracy. The method in results.py is proved against these, and
 * the counting properties of the matrix are proved about them here.
 */
module Confusion {
  import opened Wrappers
  import opened LabelDicts
  import opened Paths

  /** A (row, column) position of the confusion matrix: (true class, predicted class). */
  type Cell = (nat, nat)

  /** The exceptions `compute` can raise: a missing description, or a matrix index out of bounds. */
  datatype ComputeError =
    | KeyError(key: int)
    | IndexError(axis: nat, index: int, size: nat)

  /** One entry of `classification`: (image file name, predicted label text, folder path). */
  datatype Record = Record(image: string, predicted: string, folderPath: string)

  /** `np.trace(m) / np.sum(m)` on float64: 0.0 / 0.0 gives NaN rather than an exception. */
  datatype Score = Ratio(value: real) | NaN

  /** numpy's reading of an index into an axis of length n: a negative index counts from the end. */
  function AxisIndex(i: int, n: nat): (r: Option<nat>)
    ensures r.Some? <==> -(n as int) <= i < n
    ensures r.Some? ==> r.value < n && (r.value == i || r.value == i + n)
  {
    if 0 <= i < n then Some(i)
    else if -(n as int) <= i < 0 then Some(i + n)
    else None
  }

  /**
   * The checks one (true, predicted) pair passes through at results.py:48-49,
   * in the order Python evaluates them: the description lookup (KeyError),
   * then the row index and then the column index (IndexError on axis 0, then
   * on axis 1). A negative index counts from the end of its axis.
   */
  function CellOf(descriptions: map<int, string>, n: nat, t: int, p: int): (r: Result<Cell, ComputeError>)
    ensures p !in descriptions ==> r == Failure(KeyError(p))
    ensures p in descriptions && !(-(n as int) <= t < n) ==> r == Failure(IndexError(0, t, n))
    ensures p in descriptions && -(n as int) <= t < n && !(-(n as int) <= p < n) ==> r == Failure(IndexError(1, p, n))
    ensures r.Success? <==> p in descriptions && -(n as int) <= t < n && -(n as int) <= p < n
    ensures r.Success? ==> r.value.0 == (if t < 0 then t + n else t) && r.value.1 == (if p < 0 then p + n else p)
  {
    if p !in descriptions then Failure(KeyError(p))
    else
      match (AxisIndex(t, n), AxisIndex(p, n))
      case (None, _) => Failure(IndexError(0, t, n))
      case (Some(_), None) => Failure(IndexError(1, p, n))
      case (Some(row), Some(col)) => Success((row, col))
  }

  /** One element of `zip(dataset, true_labels, predicted_labels)`: (image path, true index, predicted index). */
  type Triple = (string, int, int)

  /** `zip` pairs up equal positions and stops at the shortest of its arguments. */
  function Zip(dataset: seq<string>, trueLabels: seq<int>, predictedLabels: seq<int>): (triples: seq<Triple>)
    ensures |triples| <= |dataset| && |triples| <= |trueLabels| && |triples| <= |predictedLabels|
    ensures |triples| == |dataset| || |triples| == |trueLabels| || |triples| == |predictedLabels|
    ensures forall j :: 0 <= j < |triples| ==> triples[j] == (dataset[j], trueLabels[j], predictedLabels[j])
  {
    var k := if |dataset| < |trueLabels| then |dataset| else |trueLabels|;
    var m := if k < |predictedLabels| then k else |predictedLabels|;
    seq(m, j requires 0 <= j < m => (dataset[j], trueLabels[j], predictedLabels[j]))
  }

  /** The `classification` list built from the first k triples. */
  function RecordsOf(labels: LabelDict, testDir: string, dataset: seq<string>, predictedLabels: seq<int>, k: nat)
    : (records: seq<Record>)
    requires k <= |dataset| && k <= |predictedLabels|
    requires forall j :: 0 <= j < k ==> predictedLabels[j] in Descriptions(labels)
  {
    seq(k, j requires 0 <= j < k =>
      Record(Basename(dataset[j]), Descriptions(labels)[predictedLabels[j]], FolderPath(testDir, dataset[j])))
  }

  /** What the loop has built so far: the cells it incremented and the records it appended. */
  datatype Progress = Progress(cells: seq<Cell>, records: seq<Record>)

  /** What one pass of the loop body does: a cell to increment and a record to append, or an error. */
  type Outcome = Result<(Cell, Record), ComputeError>

  /**
   * One pass of the loop body of `compute` on the triple (image, t, p), with
   * `descriptions` the inverse lookup and n the number of classes: the cell to
   * increment and the record to append, or the error raised.
   */
  function Step(descriptions: map<int, string>, n: nat, testDir: string, image: string, t: int, p: int): (r: Outcome)
    ensures r.Success? ==> r.value.0.0 < n && r.value.0.1 < n
  {
    match CellOf(descriptions, n, t, p)
    case Failure(e) => Failure(e)
    case Success(c) => Success((c, Record(Basename(image), descriptions[p], FolderPath(testDir, image))))
  }

  /** The outcome of the loop body on each triple, with `descriptions` the inverse lookup and n classes. */
  function Steps(descriptions: map<int, string>, n: nat, testDir: string, triples: seq<Triple>): (steps: seq<Outcome>)
    ensures |steps| == |triples|
  {
    seq(|triples|, j requires 0 <= j < |triples| =>
      Step(descriptions, n, testDir, triples[j].0, triples[j].1, triples[j].2))
  }

  /**
   * The loop over the first k outcomes: the cells incremented and the records
   * appended, or the error of the first pass that raises one.
   */
  function Scan(steps: seq<Outcome>, k: nat): Result<Progress, ComputeError>
    requires k <= |steps|
  {
    if k == 0 then Success(Progress([], []))
    else
      match Scan(steps, k - 1)
      case Failure(e) => Failure(e)
      case Success(done) =>
        match steps[k - 1]
        case Failure(e) => Failure(e)
        case Success(step) => Success(Progress(done.cells + [step.0], done.records + [step.1]))
  }

  /**
   * What the loop of `compute` (results.py:45-50) ends with on the given
   * inputs: the cells incremented and the records appended, or the error
   * raised.
   */
  function Loop(labels: LabelDict, testDir: string, dataset: seq<string>,
                trueLabels: seq<int>, predictedLabels: seq<int>): Result<Progress, ComputeError>
  {
    var triples := Zip(dataset, trueLabels, predictedLabels);
    Scan(Steps(Descriptions(labels), |labels|, testDir, triples), |triples|)
  }

  /**
   * The loop gets through k passes exactly when none of them raises; then it
   * has collected each pass's cell and record, in order.
   */
  lemma {:induction false} ScanSucceeds(steps: seq<Outcome>, k: nat)
    requires k <= |steps|
    ensures Scan(steps, k).Success? <==> forall j :: 0 <= j < k ==> steps[j].Success?
    ensures Scan(steps, k).Success? ==>
              |Scan(steps, k).value.cells| == k && |Scan(steps, k).value.records| == k &&
              forall j :: 0 <= j < k ==>
                steps[j].value == (Scan(steps, k).value.cells[j], Scan(steps, k).value.records[j])
  {
    if k > 0 {
      ScanSucceeds(steps, k - 1);
    }
  }

  /** A failing loop raises the error of the first pass that raises one. */
  lemma {:induction false} ScanFails(steps: seq<Outcome>, k: nat)
    requires k <= |steps|
    ensures Scan(steps, k).Failure? ==>
              exists j :: 0 <= j < k && steps[j] == Failure(Scan(steps, k).error) &&
                forall i :: 0 <= i < j ==> steps[i].Success?
  {
    if k > 0 {
      var prev := Scan(steps, k - 1);
      if prev.Failure? {
        ScanFails(steps, k - 1);
        assert Scan(steps, k) == prev;
      } else if Scan(steps, k).Failure? {
        ScanSucceeds(steps, k - 1);
        assert steps[k - 1] == Failure(Scan(steps, k).error);
      }
    }
  }

  /** Once a prefix of the passes raises an error, every longer prefix raises the same one. */
  lemma {:induction false} FailureSticks(steps: seq<Outcome>, k: nat, k': nat)
    requires k <= k' <= |steps|
    requires Scan(steps, k).Failure?
    ensures Scan(steps, k') == Scan(steps, k)
    decreases k' - k
  {
    if k < k' {
      FailureSticks(steps, k, k' - 1);
    }
  }

  /** The j-th outcome is the checks of the j-th pair and, when they pass, the j-th record. */
  lemma StepAt(labels: LabelDict, testDir: string, dataset: seq<string>,
               trueLabels: seq<int>, predictedLabels: seq<int>, j: nat)
    requires j < |Zip(dataset, trueLabels, predictedLabels)|
    ensures var step := Steps(Descriptions(labels), |labels|, testDir, Zip(dataset, trueLabels, predictedLabels))[j];
            var cell := CellOf(Descriptions(labels), |labels|, trueLabels[j], predictedLabels[j]);
            (step.Success? <==> cell.Success?) &&
            (cell.Failure? ==> step.error == cell.error) &&
            (cell.Success? ==>
               step.value.0 == cell.value &&
               step.value.1 == Record(Basename(dataset[j]), Descriptions(labels)[predictedLabels[j]], FolderPath(testDir, dataset[j])))
  {
  }

  /**
   * `compute`'s loop over the triples succeeds exactly when every triple
   * passes its checks; it then yields one cell per triple (the checked
   * position) and the records of `RecordsOf`.
   */
  lemma LoopSucceeds(labels: LabelDict, testDir: string, dataset: seq<string>,
                     trueLabels: seq<int>, predictedLabels: seq<int>)
    ensures var m := |Zip(dataset, trueLabels, predictedLabels)|;
            var r := Loop(labels, testDir, dataset, trueLabels, predictedLabels);
            (r.Success? <==>
               forall j :: 0 <= j < m ==>
                 CellOf(Descriptions(labels), |labels|, trueLabels[j], predictedLabels[j]).Success?) &&
            (r.Success? ==>
               |r.value.cells| == m &&
               (forall j :: 0 <= j < m ==>
                  CellOf(Descriptions(labels), |labels|, trueLabels[j], predictedLabels[j]) == Success(r.value.cells[j])) &&
               r.value.records == RecordsOf(labels, testDir, dataset, predictedLabels, m))
  {
    var triples := Zip(dataset, trueLabels, predictedLabels);
    var steps := Steps(Descriptions(labels), |labels|, testDir, triples);
    ScanSucceeds(steps, |triples|);
    forall j | 0 <= j < |triples| {
      StepAt(labels, testDir, dataset, trueLabels, predictedLabels, j);
    }
  }

  /** Otherwise the loop raises the error of the first triple that fails its checks. */
  lemma LoopFails(labels: LabelDict, testDir: string, dataset: seq<string>,
                  trueLabels: seq<int>, predictedLabels: seq<int>)
    ensures var m := |Zip(dataset, trueLabels, predictedLabels)|;
            var r := Loop(labels, testDir, dataset, trueLabels, predictedLabels);
            r.Failure? ==>
              exists j :: 0 <= j < m &&
                CellOf(Descriptions(labels), |labels|, trueLabels[j], predictedLabels[j]) == Failure(r.error) &&
                forall i :: 0 <= i < j ==>
                  CellOf(Descriptions(labels), |labels|, trueLabels[i], predictedLabels[i]).Success?
  {
    var triples := Zip(dataset, trueLabels, predictedLabels);
    var m := |triples|;
    var steps := Steps(Descriptions(labels), |labels|, testDir, triples);
    ScanFails(steps, m);
    var r := Scan(steps, m);
    if r.Failure? {
      var j :| 0 <= j < m && steps[j] == Failure(r.error) && forall i :: 0 <= i < j ==> steps[i].Success?;
      forall i | 0 <= i <= j {
        StepAt(labels, testDir, dataset, trueLabels, predictedLabels, i);
      }
    }
  }

  /** The first k (true, predicted) pairs, read as matrix positions. */
  function Pairs(trueLabels: seq<int>, predictedLabels: seq<int>, k: nat): (pairs: seq<Cell>)
    requires k <= |trueLabels| && k <= |predictedLabels|
    requires forall j :: 0 <= j < k ==> 0 <= trueLabels[j] && 0 <= predictedLabels[j]
  {
    seq(k, j requires 0 <= j < k => (trueLabels[j] as nat, predictedLabels[j] as nat))
  }

  predicate InRange(n: nat, cells: seq<Cell>) {
    forall j :: 0 <= j < |cells| ==> cells[j].0 < n && cells[j].1 < n
  }

  /** The confusion matrix of a list of cells: cell (t, p) holds how often (t, p) occurs. */
  function Tally(n: nat, cells: seq<Cell>): (m: seq<seq<nat>>)
    ensures |m| == n && forall t :: 0 <= t < n ==> |m[t]| == n
  {
    seq(n, t requires 0 <= t < n => seq(n, p requires 0 <= p < n => multiset(cells)[(t, p)]))
  }

  function Sum(s: seq<nat>): nat {
    if s == [] then 0 else s[0] + Sum(s[1..])
  }

  /** `np.sum(m)` */
  function Total(m: seq<seq<nat>>): nat {
    if m == [] then 0 else Sum(m[0]) + Total(m[1..])
  }

  predicate Square(m: seq<seq<nat>>) {
    forall t :: 0 <= t < |m| ==> |m[t]| == |m|
  }

  /** `np.trace(m)` */
  function Trace(m: seq<seq<nat>>): nat
    requires Square(m)
  {
    Sum(seq(|m|, t requires 0 <= t < |m| => m[t][t]))
  }

  /** `np.trace(m) / np.sum(m)` (results.py:51) */
  function Accuracy(m: seq<seq<nat>>): Score
    requires Square(m)
  {
    if Total(m) == 0 then NaN else Ratio(Trace(m) as real / Total(m) as real)
  }

  /** The number of correct predictions among the cells. */
  function Hits(cells: seq<Cell>): nat {
    if cells == [] then 0
    else Hits(cells[..|cells| - 1]) + (if cells[|cells| - 1].0 == cells[|cells| - 1].1 then 1 else 0)
  }

  // ---------------------------------------------------------------------------
  // Properties of the counting

  lemma {:induction false} SumIncrement(s: seq<nat>, j: nat)
    requires j < |s|
    ensures Sum(s[j := s[j] + 1]) == Sum(s) + 1
  {
    if j > 0 {
      SumIncrement(s[1..], j - 1);
      assert s[j := s[j] + 1][1..] == s[1..][j - 1 := s[j] + 1];
    }
  }

  lemma {:induction false} SumZeros(s: seq<nat>)
    requires forall j :: 0 <= j < |s| ==> s[j] == 0
    ensures Sum(s) == 0
  {
    if s != [] {
      SumZeros(s[1..]);
    }
  }

  lemma {:induction false} TotalIncrement(m: seq<seq<nat>>, t: nat, p: nat)
    requires t < |m| && p < |m[t]|
    ensures Total(m[t := m[t][p := m[t][p] + 1]]) == Total(m) + 1
  {
    var m' := m[t := m[t][p := m[t][p] + 1]];
    if t == 0 {
      SumIncrement(m[0], p);
      assert m'[1..] == m[1..];
    } else {
      TotalIncrement(m[1..], t - 1, p);
      assert m'[1..] == m[1..][t - 1 := m[t][p := m[t][p] + 1]];
    }
  }

  lemma {:induction false} TotalZeros(m: seq<seq<nat>>)
    requires forall t, p :: 0 <= t < |m| && 0 <= p < |m[t]| ==> m[t][p] == 0
    ensures Total(m) == 0
  {
    if m != [] {
      SumZeros(m[0]);
      TotalZeros(m[1..]);
    }
  }

  /** The last cell of the list adds one to exactly its own entry of the matrix. */
  lemma TallyLast(n: nat, cells: seq<Cell>)
    requires cells != [] && cells[|cells| - 1].0 < n && cells[|cells| - 1].1 < n
    ensures var m, c := Tally(n, cells[..|cells| - 1]), cells[|cells| - 1];
            Tally(n, cells) == m[c.0 := m[c.0][c.1 := m[c.0][c.1] + 1]]
  {
    var init, c := cells[..|cells| - 1], cells[|cells| - 1];
    var m := Tally(n, init);
    var m' := m[c.0 := m[c.0][c.1 := m[c.0][c.1] + 1]];
    assert cells == init + [c];
    assert multiset(cells) == multiset(init) + multiset{c};
    forall t | 0 <= t < n ensures Tally(n, cells)[t] == m'[t] {
      forall p | 0 <= p < n ensures Tally(n, cells)[t][p] == m'[t][p] {
      }
    }
  }

  /** The sum of all cells is the number of pairs processed. */
  lemma {:induction false} TallyTotal(n: nat, cells: seq<Cell>)
    requires InRange(n, cells)
    ensures Total(Tally(n, cells)) == |cells|
  {
    if cells == [] {
      TotalZeros(Tally(n, cells));
    } else {
      var init, c := cells[..|cells| - 1], cells[|cells| - 1];
      TallyTotal(n, init);
      TallyLast(n, cells);
      TotalIncrement(Tally(n, init), c.0, c.1);
    }
  }

  /** The diagonal of `Tally(n, cells)`: how often each (t, t) occurs. */
  function DiagonalCounts(n: nat, cells: seq<Cell>): (d: seq<nat>)
    ensures |d| == n
  {
    seq(n, t requires 0 <= t < n => multiset(cells)[(t, t)])
  }

  /** The last cell adds one to its diagonal entry when it is on the diagonal, and nothing otherwise. */
  lemma DiagonalSnoc(n: nat, cells: seq<Cell>)
    requires cells != [] && cells[|cells| - 1].0 < n
    ensures var d, c := DiagonalCounts(n, cells[..|cells| - 1]), cells[|cells| - 1];
            DiagonalCounts(n, cells) == if c.0 == c.1 then d[c.0 := d[c.0] + 1] else d
  {
    var init, c := cells[..|cells| - 1], cells[|cells| - 1];
    var d, d' := DiagonalCounts(n, init), DiagonalCounts(n, cells);
    assert cells == init + [c];
    assert multiset(cells) == multiset(init) + multiset{c};
    forall t | 0 <= t < n
      ensures d'[t] == if c.0 == c.1 && t == c.0 then d[t] + 1 else d[t]
    {
    }
  }

  lemma {:induction false} DiagonalCountsSum(n: nat, cells: seq<Cell>)
    requires InRange(n, cells)
    ensures Sum(DiagonalCounts(n, cells)) == Hits(cells)
  {
    if cells == [] {
      SumZeros(DiagonalCounts(n, cells));
    } else {
      var init, c := cells[..|cells| - 1], cells[|cells| - 1];
      DiagonalCountsSum(n, init);
      DiagonalSnoc(n, cells);
      if c.0 == c.1 {
        SumIncrement(DiagonalCounts(n, init), c.0);
      }
    }
  }

  /** The trace is the number of correct predictions. */
  lemma TallyTrace(n: nat, cells: seq<Cell>)
    requires InRange(n, cells)
    ensures Trace(Tally(n, cells)) == Hits(cells)
  {
    var m := Tally(n, cells);
    assert seq(n, t requires 0 <= t < n => m[t][t]) == DiagonalCounts(n, cells);
    DiagonalCountsSum(n, cells);
  }

  lemma {:induction false} HitsAtMost(cells: seq<Cell>)
    ensures Hits(cells) <= |cells|
    ensures Hits(cells) == |cells| <==> forall j :: 0 <= j < |cells| ==> cells[j].0 == cells[j].1
  {
    if cells != [] {
      var init := cells[..|cells| - 1];
      HitsAtMost(init);
      assert forall j :: 0 <= j < |init| ==> init[j] == cells[j];
    }
  }

  lemma RatioBounds(h: real, k: real)
    requires 0.0 <= h <= k && 0.0 < k
    ensures 0.0 <= h / k <= 1.0
    ensures h / k == 1.0 <==> h == k
  {
    if h / k == 1.0 {
      assert h == (h / k) * k;
    }
  }

  /** Accuracy is the share of correct predictions, and undefined (NaN) when nothing was processed. */
  lemma AccuracyOfTally(n: nat, cells: seq<Cell>)
    requires InRange(n, cells)
    ensures Accuracy(Tally(n, cells)) ==
              if cells == [] then NaN else Ratio(Hits(cells) as real / |cells| as real)
    ensures cells != [] ==> 0.0 <= Accuracy(Tally(n, cells)).value <= 1.0
  {
    var m := Tally(n, cells);
    TallyTotal(n, cells);
    TallyTrace(n, cells);
    HitsAtMost(cells);
    assert Total(m) == |cells| && Trace(m) == Hits(cells);
    if cells != [] {
      RatioBounds(Hits(cells) as real, |cells| as real);
    }
  }

  /** Accuracy is 1 exactly when every prediction equals its true label. */
  lemma PerfectIffAllCorrect(n: nat, cells: seq<Cell>)
    requires InRange(n, cells) && cells != []
    ensures Accuracy(Tally(n, cells)) == Ratio(1.0) <==>
              forall j :: 0 <= j < |cells| ==> cells[j].0 == cells[j].1
  {
    AccuracyOfTally(n, cells);
    HitsAtMost(cells);
    RatioBounds(Hits(cells) as real, |cells| as real);
  }

  /** Accuracy is 1 exactly when the matrix is diagonal. */
  lemma PerfectIffDiagonal(n: nat, cells: seq<Cell>)
    requires InRange(n, cells) && cells != []
    ensures Accuracy(Tally(n, cells)) == Ratio(1.0) <==>
              forall t, p :: 0 <= t < n && 0 <= p < n && t != p ==> Tally(n, cells)[t][p] == 0
  {
    PerfectIffAllCorrect(n, cells);
    var m := Tally(n, cells);
    if forall j :: 0 <= j < |cells| ==> cells[j].0 == cells[j].1 {
      forall t, p | 0 <= t < n && 0 <= p < n && t != p ensures m[t][p] == 0 {
        assert m[t][p] == multiset(cells)[(t, p)];
      }
    } else {
      var j :| 0 <= j < |cells| && cells[j].0 != cells[j].1;
      assert cells[j] in multiset(cells);
      assert m[cells[j].0][cells[j].1] > 0;
    }
  }

  /**
   * With every index in 0 .. n-1 and every predicted index carrying a
   * description, no error is raised and the cells are the pairs themselves,
   * so (by `Tally`) cell (t, p) counts the positions whose true label is t
   * and whose predicted label is p.
   */
  lemma ScanOfValidPairs(labels: LabelDict, testDir: string, dataset: seq<string>,
                         trueLabels: seq<int>, predictedLabels: seq<int>)
    requires forall j :: 0 <= j < |Zip(dataset, trueLabels, predictedLabels)| ==>
               0 <= trueLabels[j] < |labels| && 0 <= predictedLabels[j] < |labels| &&
               predictedLabels[j] in Descriptions(labels)
    ensures var m := |Zip(dataset, trueLabels, predictedLabels)|;
            var r := Loop(labels, testDir, dataset, trueLabels, predictedLabels);
            r.Success? && r.value.cells == Pairs(trueLabels, predictedLabels, m)
  {
    LoopSucceeds(labels, testDir, dataset, trueLabels, predictedLabels);
  }

  /**
   * The record of one image names a class of the dictionary carrying the
   * predicted index, a final path component of the image path, and a
   * '/'-terminated folder without backslashes.
   */
  lemma RecordNames(labels: LabelDict, testDir: string, image: string, p: int)
    requires p in Descriptions(labels)
    ensures var r := Record(Basename(image), Descriptions(labels)[p], FolderPath(testDir, image));
            (r.predicted, p) in labels &&
            '/' !in r.image && |r.image| <= |image| && image[|image| - |r.image|..] == r.image &&
            r.folderPath != [] && r.folderPath[|r.folderPath| - 1] == '/' && NoBackslash(r.folderPath)
  {
    DescriptionIsLastEntry(labels, p);
    BasenameShape(image);
    FolderPathShape(testDir, image);
  }

  /** Every record of `RecordsOf` is named as `RecordNames` says. */
  lemma RecordsName(labels: LabelDict, testDir: string, dataset: seq<string>, predictedLabels: seq<int>, k: nat)
    requires k <= |dataset| && k <= |predictedLabels|
    requires forall j :: 0 <= j < k ==> predictedLabels[j] in Descriptions(labels)
    ensures var records := RecordsOf(labels, testDir, dataset, predictedLabels, k);
            |records| == k &&
            forall j :: 0 <= j < k ==>
              (records[j].predicted, predictedLabels[j]) in labels &&
              '/' !in records[j].image && |records[j].image| <= |dataset[j]| &&
              dataset[j][|dataset[j]| - |records[j].image|..] == records[j].image &&
              records[j].folderPath != [] && records[j].folderPath[|records[j].folderPath| - 1] == '/' &&
              NoBackslash(records[j].folderPath)
  {
    forall j | 0 <= j < k {
      RecordNames(labels, testDir, dataset[j], predictedLabels[j]);
    }
  }
}
