/** The chart axes of `src/pages/ExperimentDetailPage.jsx`: the default X and
    Y picked from the numeric headers, and the Y list that leaves out X. */
module ExperimentDetail {
  import opened Values
  import opened Seqs
  import opened Experiments

  /** The two axis fields. */
  class Axes {
    var xAxisKey: string
    var yAxisKeys: seq<string>

    constructor ()
      ensures xAxisKey == "" && yAxisKeys == []
    {
      xAxisKey, yAxisKeys := "", [];
    }

    /** The effect run when `numericHeaders` changes: X is the first numeric
        header and Y the second, or the first again when there is only one;
        with none, both fields are left as they were. */
    method ApplyDefaults(numericHeaders: seq<string>)
      modifies this
      ensures |numericHeaders| == 0 ==> xAxisKey == old(xAxisKey) && yAxisKeys == old(yAxisKeys)
      ensures |numericHeaders| > 0 ==> xAxisKey == numericHeaders[0]
      ensures |numericHeaders| == 1 ==> yAxisKeys == [numericHeaders[0]]
      ensures |numericHeaders| > 1 ==> yAxisKeys == [numericHeaders[1]]
    {
      if |numericHeaders| > 0 {
        xAxisKey := numericHeaders[0];
        if |numericHeaders| > 1 {
          yAxisKeys := [numericHeaders[1]];
        } else {
          yAxisKeys := [numericHeaders[0]];
        }
      }
    }

    /** The X `Select`. */
    method ChooseX(v: string)
      modifies this
      ensures xAxisKey == v && yAxisKeys == old(yAxisKeys)
    {
      xAxisKey := v;
    }

    /** The Y `Select`: the list becomes the single chosen key. */
    method ChooseY(v: string)
      modifies this
      ensures yAxisKeys == [v] && xAxisKey == old(xAxisKey)
    {
      yAxisKeys := [v];
    }
  }

  /** The Y options: the numeric headers other than the current X. */
  function YOptions(numericHeaders: seq<string>, xAxisKey: string): (r: seq<string>)
    ensures forall h :: h in r <==> h in numericHeaders && h != xAxisKey
  {
    Filter(numericHeaders, h => h != xAxisKey)
  }

  /** With at least two distinct numeric headers the defaults put different
      keys on the two axes, and the default Y is one the Y list offers. */
  lemma DefaultsDiffer(numericHeaders: seq<string>)
    requires |numericHeaders| > 1 && NoDup(numericHeaders)
    ensures numericHeaders[1] != numericHeaders[0]
    ensures numericHeaders[1] in YOptions(numericHeaders, numericHeaders[0])
  {
  }
}
