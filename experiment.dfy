/** A saved experiment as the analysis pages read it, and the numeric-header
    filter that `VariableSelector.jsx`, `SelectModulePage.jsx` and
    `ExperimentDetailPage.jsx` each write out. */
module Experiments {
  import opened Values
  import opened Seqs

  /** The fields the pages use: the header list and the rows, which may be
      absent. */
  datatype ExperimentData = ExperimentData(headers: seq<string>, data: Option<seq<Row>>)

  /** `typeof firstRow[h] === 'number'`. */
  predicate IsNumberField(row: Row, h: string)
  {
    h in row && row[h].Num?
  }

  /** `numericHeaders`: the headers whose value in the first row is a number,
      in header order; no experiment, no data or empty data gives `[]`. */
  function NumericHeaders(experiment: Option<ExperimentData>): (r: seq<string>)
    ensures experiment.None? || experiment.value.data.None? || experiment.value.data.value == [] ==> r == []
    ensures experiment.Some? && experiment.value.data.Some? && experiment.value.data.value != [] ==>
              forall h :: h in r <==> h in experiment.value.headers && IsNumberField(experiment.value.data.value[0], h)
    ensures |r| <= (if experiment.Some? then |experiment.value.headers| else 0)
  {
    if experiment.None? || experiment.value.data.None? || experiment.value.data.value == [] then []
    else
      var firstRow := experiment.value.data.value[0];
      Filter(experiment.value.headers, h => IsNumberField(firstRow, h))
  }

  /** Headers that all hold numbers in the first row are kept whole, in order. */
  lemma AllNumericKept(e: ExperimentData)
    requires e.data.Some? && e.data.value != []
    requires forall h :: h in e.headers ==> IsNumberField(e.data.value[0], h)
    ensures NumericHeaders(Some(e)) == e.headers
  {
    var firstRow := e.data.value[0];
    FilterAll(e.headers, h => IsNumberField(firstRow, h));
  }
}
