/** The hand-entry table of `src/components/upload/ManualDataEntry.jsx`: a list
    of columns and a list of rows of text cells, edited by the table's buttons
    and inputs so that every row keeps one cell per column. */
module ManualEntry {
  import opened Text
  import opened Seqs
  import opened Grids

  /** `handleAddColumn`'s new column: `col{n+1}`, named `New Column`. */
  function NewColumn(columns: seq<Column>): Column
  {
    Column(ColumnId(|columns| + 1), "New Column")
  }

  /** `data.map(row => [...row, ''])`. */
  function AppendBlankCell(data: seq<seq<string>>): (r: seq<seq<string>>)
    ensures |r| == |data|
    ensures forall i :: 0 <= i < |data| ==> r[i] == data[i] + [""]
  {
    seq(|data|, i requires 0 <= i < |data| => data[i] + [""])
  }

  /** `data.map(row => row.filter((_, i) => i !== index))`. */
  function RemoveCell(data: seq<seq<string>>, index: int): (r: seq<seq<string>>)
    ensures |r| == |data|
    ensures forall i :: 0 <= i < |data| ==> r[i] == RemoveAt(data[i], index)
  {
    seq(|data|, i requires 0 <= i < |data| => RemoveAt(data[i], index))
  }

  /** The column ids need not stay distinct: removing the first of the two
      initial columns and adding one yields `col2` twice. */
  lemma ColumnIdsCanRepeat()
    ensures var start := [Column("col1", "Pressure"), Column("col2", "Volume")];
      var after := RemoveAt(start, 0) + [NewColumn(RemoveAt(start, 0))];
      after[0].id == after[1].id
  {
    assert NatToString(2) == "2";
  }

  /** The editor's state. */
  class ManualEntryTable {
    var columns: seq<Column>
    var data: seq<seq<string>>

    /** Every row has one cell per column. */
    predicate Valid()
      reads this
    {
      Rectangular(data, |columns|)
    }

    /** Two columns, Pressure and Volume, and two sample rows. */
    constructor ()
      ensures columns == [Column("col1", "Pressure"), Column("col2", "Volume")]
      ensures data == [["101", "2.0"], ["105", "1.9"]]
      ensures Valid()
    {
      columns := [Column("col1", "Pressure"), Column("col2", "Volume")];
      data := [["101", "2.0"], ["105", "1.9"]];
    }

    /** `handleAddColumn`. */
    method AddColumn()
      requires Valid()
      modifies this
      ensures Valid()
      ensures columns == old(columns) + [NewColumn(old(columns))]
      ensures data == AppendBlankCell(old(data))
    {
      columns := columns + [NewColumn(columns)];
      data := AppendBlankCell(data);
    }

    /** `handleAddRow`. */
    method AddRow()
      requires Valid()
      modifies this
      ensures Valid()
      ensures columns == old(columns)
      ensures data == old(data) + [Blanks(|columns|)]
    {
      data := data + [Blanks(|columns|)];
    }

    /** `handleColumnNameChange`. */
    method RenameColumn(index: nat, newName: string)
      requires Valid()
      requires index < |columns|
      modifies this
      ensures Valid()
      ensures columns == old(columns)[index := old(columns)[index].(name := newName)]
      ensures data == old(data)
    {
      columns := columns[index := columns[index].(name := newName)];
    }

    /** `handleCellChange`. */
    method EditCell(rowIndex: nat, colIndex: nat, value: string)
      requires Valid()
      requires rowIndex < |data| && colIndex < |columns|
      modifies this
      ensures Valid()
      ensures data == old(data)[rowIndex := old(data)[rowIndex][colIndex := value]]
      ensures columns == old(columns)
    {
      data := data[rowIndex := data[rowIndex][colIndex := value]];
    }

    /** `handleRemoveColumn`: any index outside the table changes nothing. */
    method RemoveColumn(index: int)
      requires Valid()
      modifies this
      ensures Valid()
      ensures columns == RemoveAt(old(columns), index)
      ensures data == RemoveCell(old(data), index)
    {
      columns := RemoveAt(columns, index);
      data := RemoveCell(data, index);
    }

    /** `handleRemoveRow`: any index outside the table changes nothing. */
    method RemoveRow(index: int)
      requires Valid()
      modifies this
      ensures Valid()
      ensures data == RemoveAt(old(data), index)
      ensures columns == old(columns)
    {
      data := RemoveAt(data, index);
    }

    /** `handleSubmit` hands over the table as it is. */
    method Submit() returns (rows: seq<seq<string>>, cols: seq<Column>)
      requires Valid()
      ensures rows == data && cols == columns
      ensures Rectangular(rows, |cols|)
    {
      rows, cols := data, columns;
    }
  }
}
