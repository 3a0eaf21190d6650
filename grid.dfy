/** The table shape shared by the OCR import and the manual editor: column
    descriptors `{ id, name }` and rows of text cells. */
module Grids {
  import opened Text

  datatype Column = Column(id: string, name: string)

  /** `\`col${i}\``. */
  function ColumnId(i: nat): string
  {
    "col" + NatToString(i)
  }

  /** `Array(n).fill('')`. */
  function Blanks(n: nat): (r: seq<string>)
    ensures |r| == n && forall i :: 0 <= i < n ==> r[i] == ""
  {
    seq(n, _ => "")
  }

  /** Every row has one cell per column. */
  predicate Rectangular(data: seq<seq<string>>, width: nat)
  {
    forall r :: 0 <= r < |data| ==> |data[r]| == width
  }
}
