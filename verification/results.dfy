/**
 * results.py: the `Results` class. `compute` walks the (image, true,
 * predicted) triples, appends one record per triple and increments one cell
 * of a zero-initialised `category_count` x `category_count` matrix per
 * triple; the accuracy is the trace over the sum of the matrix.
 */
module Results {
  import opened Wrappers
  import opened LabelDicts
  import opened Paths
  import opened Confusion

  /** The rows of a matrix held in a 2-D array. */
  function Rows(m: array2<nat>): (rows: seq<seq<nat>>)
    reads m
    ensures |rows| == m.Length0
    ensures forall t :: 0 <= t < m.Length0 ==> |rows[t]| == m.Length1
  {
    seq(m.Length0, t requires 0 <= t < m.Length0 reads m =>
      seq(m.Length1, p requires 0 <= p < m.Length1 reads m => m[t, p]))
  }

  /** A matrix whose every cell holds the multiplicity of its position is the tally of the cells. */
  lemma RowsOfCounts(matrix: array2<nat>, cells: seq<Cell>)
    requires matrix.Length0 == matrix.Length1
    requires forall t, p :: 0 <= t < matrix.Length0 && 0 <= p < matrix.Length1 ==>
               matrix[t, p] == multiset(cells)[(t, p)]
    ensures Rows(matrix) == Tally(matrix.Length0, cells)
  {
    var n := matrix.Length0;
    forall t | 0 <= t < n ensures Rows(matrix)[t] == Tally(n, cells)[t] {
      assert forall p :: 0 <= p < n ==> Rows(matrix)[t][p] == matrix[t, p];
    }
  }

  /** Cell (t, p) of the square matrix holds how often (t, p) occurs among the cells. */
  predicate Holds(matrix: array2<nat>, cells: seq<Cell>)
    reads matrix
  {
    forall t, p {:trigger matrix[t, p]} :: 0 <= t < matrix.Length0 && 0 <= p < matrix.Length1 ==>
      matrix[t, p] == multiset(cells)[(t, p)]
  }

  /**
   * One pass of the loop body (results.py:46-49) on triple i: append the
   * record and increment the cell, or stop with the error raised.
   */
  method Visit(descriptions: map<int, string>, n: nat, testDir: string, triple: Triple,
               ghost steps: seq<Outcome>, i: nat, matrix: array2<nat>, done: Progress)
    returns (error: Option<ComputeError>, done': Progress)
    requires i < |steps| && steps[i] == Step(descriptions, n, testDir, triple.0, triple.1, triple.2)
    requires Scan(steps, i) == Success(done)
    requires matrix.Length0 == n && matrix.Length1 == n
    requires Holds(matrix, done.cells)
    modifies matrix
    ensures var r := Scan(steps, i + 1);
            (error.Some? ==> r == Failure(error.value)) && (error.None? ==> r == Success(done'))
    ensures error.None? ==>
              Holds(matrix, done'.cells)
  {
    var (image, t, p) := triple;
    var outcome := Step(descriptions, n, testDir, image, t, p);
    if outcome.Failure? {
      return Some(outcome.error), done;
    }
    var (cell, record) := outcome.value;
    matrix[cell.0, cell.1] := matrix[cell.0, cell.1] + 1;
    assert multiset(done.cells + [cell]) == multiset(done.cells) + multiset{cell};
    error, done' := None, Progress(done.cells + [cell], done.records + [record]);
  }

  /**
   * The loop of `compute` (results.py:45-50) over a zero matrix: it ends with
   * the records and, in every cell, the number of passes that landed there,
   * or with the error of the first pass that raises one.
   */
  method Tabulate(descriptions: map<int, string>, n: nat, testDir: string, triples: seq<Triple>,
                  ghost steps: seq<Outcome>, matrix: array2<nat>)
    returns (error: Option<ComputeError>, classification: seq<Record>, ghost cells: seq<Cell>)
    requires steps == Steps(descriptions, n, testDir, triples)
    requires matrix.Length0 == n && matrix.Length1 == n
    requires Holds(matrix, [])
    modifies matrix
    ensures Scan(steps, |steps|) ==
            if error.Some? then Failure(error.value) else Success(Progress(cells, classification))
    ensures error.None? ==> Holds(matrix, cells)
  {
    var done := Progress([], []);
    var i := 0;
    while i < |triples|
      invariant 0 <= i <= |triples|
      invariant Scan(steps, i) == Success(done)
      invariant Holds(matrix, done.cells)
    {
      error, done := Visit(descriptions, n, testDir, triples[i], steps, i, matrix, done);
      if error.Some? {
        FailureSticks(steps, i + 1, |steps|);
        return error, done.records, done.cells;
      }
      i := i + 1;
    }
    error, classification, cells := None, done.records, done.cells;
  }

  class Results {
    const labels: LabelDict
    const datasetName: string

    constructor (labels: LabelDict, datasetName: string)
      ensures this.labels == labels && this.datasetName == datasetName
    {
      this.labels := labels;
      this.datasetName := datasetName;
    }

    /**
     * `compute`: on success the matrix is |labels| x |labels| and cell (t, p)
     * holds how many processed triples landed in (t, p); the records are
     * those of the processed triples in input order; the accuracy is the
     * trace over the total. Otherwise the error is the one the first failing
     * triple raises.
     */
    method Compute(testDir: string, dataset: seq<string>, trueLabels: seq<int>, predictedLabels: seq<int>)
      returns (error: Option<ComputeError>, accuracy: Score, matrix: array2<nat>, classification: seq<Record>)
      ensures fresh(matrix)
      ensures var r := Loop(labels, testDir, dataset, trueLabels, predictedLabels);
              (error.Some? <==> r.Failure?) && (r.Failure? ==> error.value == r.error)
      ensures var r := Loop(labels, testDir, dataset, trueLabels, predictedLabels);
              r.Success? ==>
                matrix.Length0 == |labels| && matrix.Length1 == |labels| &&
                Rows(matrix) == Tally(|labels|, r.value.cells) &&
                accuracy == Accuracy(Tally(|labels|, r.value.cells)) &&
                classification == r.value.records
    {
      var n := |labels|;
      matrix := new nat[n, n]((t, p) => 0);
      var descriptions := Descriptions(labels);
      var triples := Zip(dataset, trueLabels, predictedLabels);
      ghost var cells;
      error, classification, cells := Tabulate(descriptions, n, testDir, triples, Steps(descriptions, n, testDir, triples), matrix);
      if error.Some? {
        accuracy := NaN;
      } else {
        RowsOfCounts(matrix, cells);
        accuracy := Accuracy(Rows(matrix));
      }
    }
  }

  lemma ScenarioCells(labels: LabelDict, testDir: string, dataset: seq<string>,
                      trueLabels: seq<int>, predictedLabels: seq<int>, pairs: seq<Cell>)
    requires labels == [("A", 0), ("B", 1)]
    requires |dataset| == 10
    requires trueLabels == [0, 0, 0, 0, 0, 0, 1, 1, 1, 1]
    requires predictedLabels == [0, 0, 0, 0, 0, 1, 1, 1, 1, 0]
    requires pairs == [(0, 0), (0, 0), (0, 0), (0, 0), (0, 0), (0, 1), (1, 1), (1, 1), (1, 1), (1, 0)]
    ensures |Zip(dataset, trueLabels, predictedLabels)| == 10
    ensures var r := Loop(labels, testDir, dataset, trueLabels, predictedLabels);
            r.Success? && r.value.cells == pairs
  {
    assert 0 in Descriptions(labels) && 1 in Descriptions(labels);
    ScanOfValidPairs(labels, testDir, dataset, trueLabels, predictedLabels);
    ScenarioPairs(trueLabels, predictedLabels, pairs);
  }

  lemma ScenarioPairs(trueLabels: seq<int>, predictedLabels: seq<int>, pairs: seq<Cell>)
    requires trueLabels == [0, 0, 0, 0, 0, 0, 1, 1, 1, 1]
    requires predictedLabels == [0, 0, 0, 0, 0, 1, 1, 1, 1, 0]
    requires pairs == [(0, 0), (0, 0), (0, 0), (0, 0), (0, 0), (0, 1), (1, 1), (1, 1), (1, 1), (1, 0)]
    ensures Pairs(trueLabels, predictedLabels, 10) == pairs
  {
    assert forall j :: 0 <= j < 10 ==> Pairs(trueLabels, predictedLabels, 10)[j] == pairs[j];
  }

  lemma ScenarioCounts(pairs: seq<Cell>)
    requires pairs == [(0, 0), (0, 0), (0, 0), (0, 0), (0, 0), (0, 1), (1, 1), (1, 1), (1, 1), (1, 0)]
    ensures multiset(pairs)[(0, 0)] == 5 && multiset(pairs)[(0, 1)] == 1
    ensures multiset(pairs)[(1, 0)] == 1 && multiset(pairs)[(1, 1)] == 3
  {
    assert multiset(pairs) == multiset{(0, 0), (0, 0), (0, 0), (0, 0), (0, 0), (0, 1), (1, 1), (1, 1), (1, 1), (1, 0)};
  }

  lemma ScenarioTally(pairs: seq<Cell>)
    requires pairs == [(0, 0), (0, 0), (0, 0), (0, 0), (0, 0), (0, 1), (1, 1), (1, 1), (1, 1), (1, 0)]
    ensures Tally(2, pairs) == [[5, 1], [1, 3]]
  {
    ScenarioCounts(pairs);
    var m := Tally(2, pairs);
    assert m[0] == [5, 1] && m[1] == [1, 3];
  }

  lemma ScenarioAccuracy(m: seq<seq<nat>>)
    requires m == [[5, 1], [1, 3]]
    ensures Accuracy(m) == Ratio(0.8)
  {
    assert Sum([1]) == 1 && Sum([3]) == 3;
    assert Sum([5, 1]) == 6 && Sum([1, 3]) == 4 && Sum([5, 3]) == 8;
    assert Total(m[1..]) == 4 by {
      assert m[1..] == [[1, 3]] && m[1..][1..] == [];
    }
    assert Total(m) == 10;
    assert seq(2, t requires 0 <= t < 2 => m[t][t]) == [5, 3];
    assert Trace(m) == 8;
  }

  /**
   * Two classes A (index 0) and B (index 1); six images of A and four of B,
   * predicted A, A, A, A, A, B, B, B, B, A: the matrix is [[5, 1], [1, 3]]
   * and the accuracy 0.8 (the last image is a B predicted as A).
   */
  lemma TwoClassScenario(labels: LabelDict, testDir: string, dataset: seq<string>,
                          trueLabels: seq<int>, predictedLabels: seq<int>)
    requires labels == [("A", 0), ("B", 1)]
    requires |dataset| == 10
    requires trueLabels == [0, 0, 0, 0, 0, 0, 1, 1, 1, 1]
    requires predictedLabels == [0, 0, 0, 0, 0, 1, 1, 1, 1, 0]
    ensures var r := Loop(labels, testDir, dataset, trueLabels, predictedLabels);
            r.Success? &&
            Tally(|labels|, r.value.cells) == [[5, 1], [1, 3]] &&
            Accuracy(Tally(|labels|, r.value.cells)) == Ratio(0.8)
  {
    var pairs := [(0, 0), (0, 0), (0, 0), (0, 0), (0, 0), (0, 1), (1, 1), (1, 1), (1, 1), (1, 0)];
    ScenarioCells(labels, testDir, dataset, trueLabels, predictedLabels, pairs);
    ScenarioTally(pairs);
    ScenarioAccuracy(Tally(2, pairs));
  }
}
