/** The spreadsheet reader of `src/pages/UploadPage.jsx`: a grid of cells (the
    first sheet, decoded with `header: 1, defval: null`) whose first two rows
    are a primary and a unit header. The two header rows are flattened into
    one label per column and every later row becomes a row object keyed by
    those labels, each cell coerced to `null`, a number or a string. */
module UploadPage {
  import opened Values
  import opened Text

  const TooShortMessage := "File must contain at least 2 header rows and 1 data row."

  /** `String(v)` for a defined cell; the decimal rendering of a number is a parameter. */
  function Stringify(v: Value, render: real -> string): string
  {
    match v
    case Null => "null"
    case Num(n) => render(n)
    case Text(s) => s
    case Bool(b) => if b then "true" else "false"
  }

  /** A primary cell that names its column: not `null` and not an `Unnamed…` placeholder. */
  predicate Named(header: Value, render: real -> string)
  {
    header != Null && !StartsWith(Stringify(header, render), "Unnamed")
  }

  /** `mainHeader`: the trimmed text of a named primary cell, otherwise the current one. */
  function MainHeader(header: Value, current: string, render: real -> string): string
  {
    if Named(header, render) then Trim(Stringify(header, render)) else current
  }

  /** `subHeader`: the trimmed unit cell when it is truthy (a missing cell is not). */
  function SubHeader(unitRow: seq<Value>, i: nat, render: real -> string): string
  {
    if i < |unitRow| && Truthy(unitRow[i]) then Trim(Stringify(unitRow[i], render)) else ""
  }

  /** `finalHeader`: the primary, followed by the unit in parentheses when the
      unit is non-empty and differs from the primary ignoring case. */
  function FinalHeader(main: string, sub: string): (r: string)
    ensures r == main || (sub != "" && Lower(sub) != Lower(main) && r == main + " (" + sub + ")")
    ensures sub == "" ==> r == main
    ensures sub != "" && Lower(sub) != Lower(main) ==> r == main + " (" + sub + ")"
    ensures Lower(sub) == Lower(main) ==> r == main
  {
    if sub != "" && Lower(sub) != Lower(main) then main + " (" + sub + ")" else main
  }

  /** The state of the header scan: `currentMainHeader` and `flattenedHeaders`. */
  datatype HeaderScan = HeaderScan(current: string, labels: seq<string>)

  /** The scan after the first `|headerRow|` primary cells. */
  function ScanHeaders(headerRow: seq<Value>, unitRow: seq<Value>, render: real -> string): (st: HeaderScan)
    ensures |st.labels| == |headerRow|
  {
    if headerRow == [] then HeaderScan("", [])
    else
      var n := |headerRow| - 1;
      var st := ScanHeaders(headerRow[..n], unitRow, render);
      var main := MainHeader(headerRow[n], st.current, render);
      HeaderScan(if main != "" then main else st.current,
                 st.labels + [FinalHeader(main, SubHeader(unitRow, n, render))])
  }

  /** The header-flattening `forEach` loop. */
  method FlattenHeaders(headerRow: seq<Value>, unitRow: seq<Value>, render: real -> string)
    returns (flattened: seq<string>)
    ensures flattened == ScanHeaders(headerRow, unitRow, render).labels
  {
    flattened := [];
    var current := "";
    for i := 0 to |headerRow|
      invariant HeaderScan(current, flattened) == ScanHeaders(headerRow[..i], unitRow, render)
    {
      assert headerRow[..i + 1][..i] == headerRow[..i];
      var header := headerRow[i];
      var mainHeader := if header != Null && !StartsWith(Stringify(header, render), "Unnamed")
                        then Trim(Stringify(header, render)) else current;
      if mainHeader != "" {
        current := mainHeader;
      }
      var subHeader := if i < |unitRow| && Truthy(unitRow[i]) then Trim(Stringify(unitRow[i], render)) else "";
      var finalHeader := mainHeader;
      if subHeader != "" && Lower(subHeader) != Lower(mainHeader) {
        finalHeader := mainHeader + " (" + subHeader + ")";
      }
      flattened := flattened + [finalHeader];
    }
    assert headerRow[..|headerRow|] == headerRow;
  }

  /** The most recent primary, among `cells`, that names its column with a
      non-blank text: its trimmed text, or `""` when there is none. */
  function LastNamedPrimary(cells: seq<Value>, render: real -> string): (r: string)
    ensures r == "" || exists j :: 0 <= j < |cells| && Named(cells[j], render) && r == Trim(Stringify(cells[j], render))
  {
    if cells == [] then ""
    else
      var n := |cells| - 1;
      var t := Trim(Stringify(cells[n], render));
      if Named(cells[n], render) && t != "" then t
      else
        var r := LastNamedPrimary(cells[..n], render);
        assert forall j :: 0 <= j < n ==> cells[..n][j] == cells[j];
        r
  }

  /** The primary a column is labelled with: its own trimmed text when it names
      its column (even when that text is blank), otherwise the most recent
      non-blank named primary to its left, otherwise nothing. */
  function Primary(headerRow: seq<Value>, i: nat, render: real -> string): string
    requires i < |headerRow|
  {
    if Named(headerRow[i], render) then Trim(Stringify(headerRow[i], render))
    else LastNamedPrimary(headerRow[..i], render)
  }

  /** The scan's current primary is the most recent non-blank named one. */
  lemma {:induction false} ScanCurrent(headerRow: seq<Value>, unitRow: seq<Value>, render: real -> string)
    ensures ScanHeaders(headerRow, unitRow, render).current == LastNamedPrimary(headerRow, render)
  {
    if headerRow != [] {
      ScanCurrent(headerRow[..|headerRow| - 1], unitRow, render);
    }
  }

  /** A column's primary depends only on the cells up to it. */
  lemma PrimaryPrefix(headerRow: seq<Value>, n: nat, i: nat, render: real -> string)
    requires i < n <= |headerRow|
    ensures Primary(headerRow[..n], i, render) == Primary(headerRow, i, render)
  {
    assert headerRow[..n][..i] == headerRow[..i];
  }

  /** The last column is labelled with its primary, forward-filled, and its unit. */
  lemma LastLabel(headerRow: seq<Value>, unitRow: seq<Value>, render: real -> string)
    requires headerRow != []
    ensures var n := |headerRow| - 1;
      ScanHeaders(headerRow, unitRow, render).labels[n]
      == FinalHeader(Primary(headerRow, n, render), SubHeader(unitRow, n, render))
  {
    var n := |headerRow| - 1;
    ScanCurrent(headerRow[..n], unitRow, render);
  }

  /** Column `i` is labelled with its primary, forward-filled, and its unit. */
  lemma {:induction false} FlattenedLabel(headerRow: seq<Value>, unitRow: seq<Value>, render: real -> string, i: nat)
    requires i < |headerRow|
    ensures ScanHeaders(headerRow, unitRow, render).labels[i]
            == FinalHeader(Primary(headerRow, i, render), SubHeader(unitRow, i, render))
  {
    var n := |headerRow| - 1;
    if i < n {
      var st := ScanHeaders(headerRow[..n], unitRow, render);
      var main := MainHeader(headerRow[n], st.current, render);
      assert ScanHeaders(headerRow, unitRow, render).labels
             == st.labels + [FinalHeader(main, SubHeader(unitRow, n, render))];
      assert ScanHeaders(headerRow, unitRow, render).labels[i] == st.labels[i];
      FlattenedLabel(headerRow[..n], unitRow, render, i);
      assert st.labels[i] == FinalHeader(Primary(headerRow[..n], i, render), SubHeader(unitRow, i, render));
      PrimaryPrefix(headerRow, n, i, render);
    } else {
      LastLabel(headerRow, unitRow, render);
      assert i == n;
    }
  }

  /** There is no positional fallback: an unnamed first column without a unit
      gets the empty label. */
  lemma NoPositionalFallback(render: real -> string)
    ensures ScanHeaders([Null, Text("P")], [Null, Null], render).labels == ["", "P"]
  {
    var row: seq<Value> := [Null, Text("P")];
    assert row[..1] == [Null] && row[..1][..0] == [];
    assert Trim("P") == "P" by { TrimNoWhitespace("P"); }
    assert !StartsWith("P", "Unnamed");
  }

  // ---------------------------------------------------------------------------
  // Cells and row objects.

  /** The conversion of one cell (`undefined` is `None`): `null` and `undefined`
      become `null`, numbers stay, a blank string becomes `null`, a string whose
      trimmed text `Number()` parses becomes that number, and any other string
      is kept as written. `numberOf` stands for `Number()` with its `NaN` test. */
  function CoerceCell(v: Option<Value>, numberOf: string -> Option<real>): (r: Value)
    ensures r.Text? ==> v == Some(r) && Trim(r.s) != "" && numberOf(Trim(r.s)).None?
    ensures r.Num? ==> v == Some(r) || (v.Some? && v.value.Text? && numberOf(Trim(v.value.s)) == Some(r.n))
    ensures r.Bool? ==> v == Some(r)
    ensures r == Null ==> v.None? || v == Some(Null) || (v.value.Text? && Trim(v.value.s) == "")
    ensures v.None? || v == Some(Null) ==> r == Null
    ensures v.Some? && v.value.Text? && Trim(v.value.s) == "" ==> r == Null
    ensures v.Some? && v.value.Text? && Trim(v.value.s) != "" && numberOf(Trim(v.value.s)).Some? ==>
              r == Num(numberOf(Trim(v.value.s)).value)
    ensures v.Some? && v.value.Text? && Trim(v.value.s) != "" && numberOf(Trim(v.value.s)).None? ==> r == v.value
    ensures v.Some? && (v.value.Num? || v.value.Bool?) ==> r == v.value
  {
    match v
    case None => Null
    case Some(Null) => Null
    case Some(Num(n)) => Num(n)
    case Some(Text(s)) =>
      var t := Trim(s);
      if t == "" then Null
      else if numberOf(t).Some? then Num(numberOf(t).value)
      else Text(s)
    case Some(Bool(b)) => Bool(b)
  }

  /** Converting a converted cell again changes nothing. */
  lemma CoerceIdempotent(v: Option<Value>, numberOf: string -> Option<real>)
    ensures CoerceCell(Some(CoerceCell(v, numberOf)), numberOf) == CoerceCell(v, numberOf)
  {
  }

  /** `row[index]`: `undefined` past the end of a short row. */
  function Cell(row: seq<Value>, i: nat): Option<Value>
  {
    if i < |row| then Some(row[i]) else None
  }

  /** `rowObject` after the first `|headers|` assignments. */
  function RowObject(headers: seq<string>, row: seq<Value>, numberOf: string -> Option<real>): Row
  {
    if headers == [] then map[]
    else
      var n := |headers| - 1;
      RowObject(headers[..n], row, numberOf)[headers[n] := CoerceCell(Cell(row, n), numberOf)]
  }

  /** The `forEach` filling one row object. */
  method BuildRowObject(headers: seq<string>, row: seq<Value>, numberOf: string -> Option<real>)
    returns (rowObject: Row)
    ensures rowObject == RowObject(headers, row, numberOf)
  {
    rowObject := map[];
    for i := 0 to |headers|
      invariant rowObject == RowObject(headers[..i], row, numberOf)
    {
      assert headers[..i + 1][..i] == headers[..i];
      var value := if i < |row| then Some(row[i]) else None;
      var converted: Value;
      if value.None? || value == Some(Null) {
        converted := Null;
      } else if value.value.Num? {
        converted := value.value;
      } else if value.value.Text? {
        var trimmedValue := Trim(value.value.s);
        if trimmedValue == "" {
          converted := Null;
        } else if numberOf(trimmedValue).Some? {
          converted := Num(numberOf(trimmedValue).value);
        } else {
          converted := value.value;
        }
      } else {
        converted := value.value;
      }
      rowObject := rowObject[headers[i] := converted];
    }
    assert headers[..|headers|] == headers;
  }

  /** A row object has exactly the labels as fields. */
  lemma {:induction false} RowObjectKeys(headers: seq<string>, row: seq<Value>, numberOf: string -> Option<real>)
    ensures forall k :: k in RowObject(headers, row, numberOf) <==> k in headers
  {
    if headers != [] {
      var n := |headers| - 1;
      RowObjectKeys(headers[..n], row, numberOf);
      assert headers == headers[..n] + [headers[n]];
    }
  }

  /** A label shared by several columns holds the value of the last of them. */
  lemma {:induction false} RowObjectLastWins(headers: seq<string>, row: seq<Value>, numberOf: string -> Option<real>, i: nat)
    requires i < |headers|
    requires forall j :: i < j < |headers| ==> headers[j] != headers[i]
    ensures headers[i] in RowObject(headers, row, numberOf)
    ensures RowObject(headers, row, numberOf)[headers[i]] == CoerceCell(Cell(row, i), numberOf)
  {
    var n := |headers| - 1;
    if i < n {
      var prefix := headers[..n];
      assert prefix[i] == headers[i];
      assert forall j :: i < j < n ==> prefix[j] == headers[j];
      RowObjectLastWins(prefix, row, numberOf, i);
    }
  }

  /** The decoded sheet: the flattened labels and one row object per data row. */
  datatype Parsed = Parsed(headers: seq<string>, rows: seq<Row>)

  /** The parsing part of `reader.onload`: rejects a grid without two header
      rows and a data row, then flattens the headers and converts rows 2..N. */
  method ParseGrid(grid: seq<seq<Value>>, render: real -> string, numberOf: string -> Option<real>)
    returns (r: Result<Parsed, string>)
    ensures r.Err? <==> |grid| < 3
    ensures r.Err? ==> r.error == TooShortMessage
    ensures r.Ok? ==>
      && r.value.headers == ScanHeaders(grid[0], grid[1], render).labels
      && |r.value.rows| == |grid| - 2
      && forall i :: 0 <= i < |r.value.rows| ==>
           r.value.rows[i] == RowObject(r.value.headers, grid[i + 2], numberOf)
  {
    if |grid| < 3 {
      return Err(TooShortMessage);
    }
    var flattened := FlattenHeaders(grid[0], grid[1], render);
    var dataRows := grid[2..];
    var parsedData: seq<Row> := [];
    for i := 0 to |dataRows|
      invariant |parsedData| == i
      invariant forall k :: 0 <= k < i ==> parsedData[k] == RowObject(flattened, grid[k + 2], numberOf)
    {
      var rowObject := BuildRowObject(flattened, dataRows[i], numberOf);
      parsedData := parsedData + [rowObject];
    }
    r := Ok(Parsed(flattened, parsedData));
  }
}
