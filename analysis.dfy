/** The analysis runner of `src/lib/analysis.js`: the built-in calculation
    descriptors, the stable ordering by dependency count, and the per-row run
    that adds one display field per calculation that produces a value. */
module Analysis {
  import opened Values
  import opened Seqs
  import opened ColumnMaps

  /** The `func` of a descriptor: one of the two built-ins, or a custom formula
      over its extracted variables. */
  datatype Func =
    | InternalEnergyFunc
    | EnthalpyFunc
    | FormulaFunc(variables: seq<string>, expression: string)

  /** A calculation descriptor; a missing `dependencies` field is `[]`. */
  datatype Calculation = Calculation(
    id: string,
    name: string,
    formula: string,
    func: Func,
    requiredInputs: seq<string>,
    dependencies: seq<string>,
    outputKey: string,
    outputUnit: string)

  /** The floating-point arithmetic, left abstract: the Internal Energy and
      Enthalpy formulas with their unit conversions and 3-decimal rounding, and
      the evaluation of a custom formula on the bindings of its variables. */
  datatype Arithmetic = Arithmetic(
    internalEnergy: (Value, Value) -> real,
    enthalpy: (real, Value, Value) -> real,
    evaluate: (string, Row) -> Option<real>)

  /** `calculateInternalEnergy`: `null` unless pressure and volume are truthy. */
  function CalculateInternalEnergy(row: Row, ar: Arithmetic): (r: Option<real>)
    ensures r.Some? <==> TruthyOpt(Field(row, "pressure")) && TruthyOpt(Field(row, "volume"))
  {
    if TruthyOpt(Field(row, "pressure")) && TruthyOpt(Field(row, "volume"))
    then Some(ar.internalEnergy(row["pressure"], row["volume"]))
    else None
  }

  /** `calculateEnthalpy`: also `null` while no Internal Energy has been computed. */
  function CalculateEnthalpy(row: Row, calculated: map<string, real>, ar: Arithmetic): (r: Option<real>)
    ensures r.Some? <==> TruthyOpt(Field(row, "pressure")) && TruthyOpt(Field(row, "volume"))
                         && "internalEnergy" in calculated
  {
    if TruthyOpt(Field(row, "pressure")) && TruthyOpt(Field(row, "volume")) && "internalEnergy" in calculated
    then Some(ar.enthalpy(calculated["internalEnergy"], row["pressure"], row["volume"]))
    else None
  }

  /** The bindings a custom formula sees: its variables, destructured from the row. */
  function FormulaBindings(variables: seq<string>, row: Row): Row
  {
    map v | v in variables && v in row :: row[v]
  }

  /** `calc.func(stdRow, calculatedData)`. */
  function Apply(c: Calculation, std: Row, calculated: map<string, real>, ar: Arithmetic): Option<real>
  {
    match c.func
    case InternalEnergyFunc => CalculateInternalEnergy(std, ar)
    case EnthalpyFunc => CalculateEnthalpy(std, calculated, ar)
    case FormulaFunc(variables, expression) => ar.evaluate(expression, FormulaBindings(variables, std))
  }

  const InternalEnergy := Calculation(
    "internalEnergy", "Internal Energy (U)", "U = 1.5 * P * V (Ideal Gas)", InternalEnergyFunc,
    ["pressure", "volume"], [], "internalEnergy", "J")

  const Enthalpy := Calculation(
    "enthalpy", "Enthalpy (H)", "H = U + P * V", EnthalpyFunc,
    ["pressure", "volume"], ["internalEnergy"], "enthalpy", "J")

  /** `AVAILABLE_CALCULATIONS`. */
  const AvailableCalculations := [InternalEnergy, Enthalpy]

  // ---------------------------------------------------------------------------
  // Ordering: `[...selected].sort((a, b) => deps(a) - deps(b))`, a stable sort.

  function DependencyCount(c: Calculation): nat
  {
    |c.dependencies|
  }

  predicate SortedByDependencies(s: seq<Calculation>)
  {
    forall i, j :: 0 <= i < j < |s| ==> DependencyCount(s[i]) <= DependencyCount(s[j])
  }

  /** Inserts `c` before the first element with at least as many dependencies. */
  function InsertByDependencies(c: Calculation, s: seq<Calculation>): (r: seq<Calculation>)
    ensures multiset(r) == multiset(s) + multiset{c}
  {
    if s == [] || DependencyCount(c) <= DependencyCount(s[0]) then [c] + s
    else
      assert s == [s[0]] + s[1..];
      [s[0]] + InsertByDependencies(c, s[1..])
  }

  /** Every calculation of `s` has at least `k` dependencies. */
  predicate AtLeastDependencies(s: seq<Calculation>, k: nat)
  {
    forall j :: 0 <= j < |s| ==> k <= DependencyCount(s[j])
  }

  /** Insertion keeps a lower bound on the dependency counts that `c` meets. */
  lemma {:induction false} InsertBounded(c: Calculation, s: seq<Calculation>, k: nat)
    requires AtLeastDependencies(s, k) && k <= DependencyCount(c)
    ensures AtLeastDependencies(InsertByDependencies(c, s), k)
  {
    if s != [] && DependencyCount(c) > DependencyCount(s[0]) {
      InsertBounded(c, s[1..], k);
    }
  }

  /** Insertion keeps the list sorted by dependency count. */
  lemma {:induction false} InsertSorted(c: Calculation, s: seq<Calculation>)
    requires SortedByDependencies(s)
    ensures SortedByDependencies(InsertByDependencies(c, s))
  {
    if s != [] && DependencyCount(c) > DependencyCount(s[0]) {
      var t := InsertByDependencies(c, s[1..]);
      InsertSorted(c, s[1..]);
      InsertBounded(c, s[1..], DependencyCount(s[0]));
      assert InsertByDependencies(c, s) == [s[0]] + t;
    }
  }

  /** The copy of the selection that the runner walks through. */
  function SortByDependencyCount(s: seq<Calculation>): (r: seq<Calculation>)
    ensures SortedByDependencies(r)
    ensures multiset(r) == multiset(s)
  {
    if s == [] then []
    else
      assert s == [s[0]] + s[1..];
      InsertSorted(s[0], SortByDependencyCount(s[1..]));
      InsertByDependencies(s[0], SortByDependencyCount(s[1..]))
  }

  /** The calculations of `s` with exactly `k` dependencies, in their order in `s`. */
  function WithDependencyCount(s: seq<Calculation>, k: nat): seq<Calculation>
  {
    Filter(s, c => DependencyCount(c) == k)
  }

  lemma {:induction false} InsertKeepsTies(c: Calculation, s: seq<Calculation>, k: nat)
    ensures WithDependencyCount(InsertByDependencies(c, s), k)
            == (if DependencyCount(c) == k then [c] else []) + WithDependencyCount(s, k)
  {
    if s == [] || DependencyCount(c) <= DependencyCount(s[0]) {
      assert ([c] + s)[1..] == s;
    } else {
      InsertKeepsTies(c, s[1..], k);
      var t := InsertByDependencies(c, s[1..]);
      assert ([s[0]] + t)[1..] == t;
    }
  }

  /** The sort is stable: calculations with equally many dependencies keep the
      caller's relative order. */
  lemma {:induction false} SortIsStable(s: seq<Calculation>, k: nat)
    ensures WithDependencyCount(SortByDependencyCount(s), k) == WithDependencyCount(s, k)
  {
    if s != [] {
      SortIsStable(s[1..], k);
      InsertKeepsTies(s[0], SortByDependencyCount(s[1..]), k);
    }
  }

  // ---------------------------------------------------------------------------
  // One row.

  /** The display field a calculation writes: `"{name} ({outputUnit})"`. */
  function HeaderName(c: Calculation): string
  {
    c.name + " (" + c.outputUnit + ")"
  }

  /** `stdRow`: the loop over the column map's entries, in key order, setting
      each semantic key to the row's value of its column. Storing `undefined`
      (a column the row lacks) leaves the key undefined. */
  function StandardRow(cm: ColumnMap, row: Row): Row
  {
    if cm == [] then map[]
    else
      var std := StandardRow(cm[..|cm| - 1], row);
      var key := cm[|cm| - 1].0;
      var column := cm[|cm| - 1].1;
      if column in row then std[key := row[column]] else std - {key}
  }

  /** On a well-formed column map, the standardized row binds exactly the keys
      whose column the row has, each to that column's value. */
  lemma {:induction false} StandardRowLookup(cm: ColumnMap, row: Row)
    requires WellFormed(cm)
    ensures forall k :: k in StandardRow(cm, row) <==> k in Keys(cm) && Get(cm, k).value in row
    ensures forall k :: k in StandardRow(cm, row) ==> StandardRow(cm, row)[k] == row[Get(cm, k).value]
  {
    if cm != [] {
      var n := |cm| - 1;
      var p := cm[..n];
      assert Keys(cm) == Keys(p) + [cm[n].0];
      assert WellFormed(p) by {
        forall i, j | 0 <= i < j < |Keys(p)| ensures Keys(p)[i] != Keys(p)[j] {
          assert Keys(p)[i] == Keys(cm)[i] && Keys(p)[j] == Keys(cm)[j];
        }
      }
      StandardRowLookup(p, row);
      assert cm == p + [cm[n]];
      forall k | k in Keys(p) ensures Get(cm, k) == Get(p, k) {
        GetAppend(p, cm[n], k);
      }
      GetAppend(p, cm[n], cm[n].0);
      assert cm[n].0 !in Keys(p) by {
        forall i | 0 <= i < |Keys(p)| ensures Keys(p)[i] != cm[n].0 {
          assert Keys(cm)[i] != Keys(cm)[n];
        }
      }
    }
  }

  /** `hasInputs`: every required input is defined (a `null` value counts). */
  predicate HasInputs(c: Calculation, std: Row)
  {
    forall key :: key in c.requiredInputs ==> key in std
  }

  /** `hasDeps`: every dependency's output is already in the row's results. */
  predicate HasDeps(c: Calculation, calculated: map<string, real>)
  {
    forall dep :: dep in c.dependencies ==> dep in calculated
  }

  /** The state of one row's run: `calculatedData`, `newRow`, and the display
      fields written so far (in order, repeats included). */
  datatype RowState = RowState(calculated: map<string, real>, row: Row, fired: seq<string>)

  /** One iteration of the loop over the sorted calculations. */
  function Step(c: Calculation, std: Row, ar: Arithmetic, st: RowState): RowState
  {
    if HasInputs(c, std) && HasDeps(c, st.calculated) then
      match Apply(c, std, st.calculated, ar)
      case None => st
      case Some(v) =>
        RowState(st.calculated[c.outputKey := v], st.row[HeaderName(c) := Num(v)], st.fired + [HeaderName(c)])
    else st
  }

  /** The row's state after the first `|calcs|` calculations, starting from a
      copy of the original row. */
  function RunCalculations(calcs: seq<Calculation>, std: Row, ar: Arithmetic, original: Row): RowState
  {
    if calcs == [] then RowState(map[], original, [])
    else Step(calcs[|calcs| - 1], std, ar, RunCalculations(calcs[..|calcs| - 1], std, ar, original))
  }

  /** A step either changes nothing or records the result of a calculation
      whose inputs and dependencies were there. */
  lemma StepCases(c: Calculation, std: Row, ar: Arithmetic, st: RowState)
    ensures var t := Step(c, std, ar, st);
      || t == st
      || (&& HasInputs(c, std) && HasDeps(c, st.calculated)
          && Apply(c, std, st.calculated, ar).Some?
          && var v := Apply(c, std, st.calculated, ar).value;
             t == RowState(st.calculated[c.outputKey := v], st.row[HeaderName(c) := Num(v)],
                           st.fired + [HeaderName(c)]))
  {
  }

  lemma RunCalculationsSnoc(calcs: seq<Calculation>, j: nat, std: Row, ar: Arithmetic, original: Row)
    requires j < |calcs|
    ensures RunCalculations(calcs[..j + 1], std, ar, original)
            == Step(calcs[j], std, ar, RunCalculations(calcs[..j], std, ar, original))
  {
    assert calcs[..j + 1][..j] == calcs[..j];
  }

  function AnalyzeRow(calcs: seq<Calculation>, cm: ColumnMap, row: Row, ar: Arithmetic): RowState
  {
    RunCalculations(calcs, StandardRow(cm, row), ar, row)
  }

  /** The display fields written on each row, row by row. */
  function RowsFired(calcs: seq<Calculation>, cm: ColumnMap, data: seq<Row>, ar: Arithmetic): (r: seq<seq<string>>)
    ensures |r| == |data|
  {
    if data == [] then []
    else RowsFired(calcs, cm, data[..|data| - 1], ar) + [AnalyzeRow(calcs, cm, data[|data| - 1], ar).fired]
  }

  lemma {:induction false} RowsFiredAt(calcs: seq<Calculation>, cm: ColumnMap, data: seq<Row>, ar: Arithmetic, i: nat)
    requires i < |data|
    ensures RowsFired(calcs, cm, data, ar)[i] == AnalyzeRow(calcs, cm, data[i], ar).fired
  {
    var n := |data| - 1;
    if i < n {
      RowsFiredAt(calcs, cm, data[..n], ar, i);
    }
  }

  /** Every display field written while scanning `data`, row by row. */
  function Events(calcs: seq<Calculation>, cm: ColumnMap, data: seq<Row>, ar: Arithmetic): seq<string>
  {
    Flatten(RowsFired(calcs, cm, data, ar))
  }

  /** The loop building `stdRow`. */
  method StandardizeRow(cm: ColumnMap, row: Row) returns (std: Row)
    ensures std == StandardRow(cm, row)
  {
    std := map[];
    for i := 0 to |cm|
      invariant std == StandardRow(cm[..i], row)
    {
      var key, column := cm[i].0, cm[i].1;
      assert cm[..i + 1][..i] == cm[..i];
      if column in row {
        std := std[key := row[column]];
      } else {
        std := std - {key};
      }
    }
    assert cm[..|cm|] == cm;
  }

  /** One pass of the loop over the sorted calculations: runs `c` when its
      inputs and dependencies are there, and records its display field in
      `headers` unless present. */
  method StepInto(c: Calculation, std: Row, ar: Arithmetic, calculated: map<string, real>, row: Row,
                  headers: seq<string>, ghost fired: seq<string>, ghost start: seq<string>)
    returns (calculated': map<string, real>, row': Row, headers': seq<string>, ghost fired': seq<string>)
    requires headers == AppendNew(start, fired)
    ensures RowState(calculated', row', fired') == Step(c, std, ar, RowState(calculated, row, fired))
    ensures headers' == AppendNew(start, fired')
  {
    calculated', row', headers', fired' := calculated, row, headers, fired;
    var hasInputs := forall key | key in c.requiredInputs :: key in std;
    var hasDeps := forall dep | dep in c.dependencies :: dep in calculated;
    assert hasInputs == HasInputs(c, std);
    assert hasDeps == HasDeps(c, calculated);
    if hasInputs && hasDeps {
      var result := Apply(c, std, calculated, ar);
      if result.Some? {
        var headerName := HeaderName(c);
        calculated' := calculated[c.outputKey := result.value];
        row' := row[headerName := Num(result.value)];
        AppendNewSnoc(start, fired, headerName);
        fired' := fired + [headerName];
        if headerName !in headers {
          headers' := headers + [headerName];
        }
      }
    }
  }

  /** The body of `runAnalysis` for one row: runs the sorted calculations over
      it and adds each display field it writes to `headers` unless present. */
  method AnalyzeRowInto(calcs: seq<Calculation>, std: Row, original: Row, ar: Arithmetic,
                        headers: seq<string>, ghost before: seq<string>)
    returns (newRow: Row, newHeaders: seq<string>)
    requires headers == Distinct(before)
    ensures newRow == RunCalculations(calcs, std, ar, original).row
    ensures newHeaders == Distinct(before + RunCalculations(calcs, std, ar, original).fired)
  {
    var calculated: map<string, real> := map[];
    newRow := original;
    newHeaders := headers;
    ghost var fired: seq<string> := [];
    var j := 0;
    while j < |calcs|
      invariant 0 <= j <= |calcs|
      invariant RowState(calculated, newRow, fired) == RunCalculations(calcs[..j], std, ar, original)
      invariant newHeaders == AppendNew(headers, fired)
    {
      RunCalculationsSnoc(calcs, j, std, ar, original);
      calculated, newRow, newHeaders, fired := StepInto(calcs[j], std, ar, calculated, newRow, newHeaders, fired, headers);
      j := j + 1;
    }
    assert calcs[..j] == calcs;
    AppendNewDistinct(before, fired);
  }

  /** `runAnalysis`: one output row per input row, in order, and the display
      fields in the order they were first written. */
  method RunAnalysis(data: seq<Row>, cm: ColumnMap, selected: seq<Calculation>, ar: Arithmetic)
    returns (newData: seq<Row>, newHeaders: seq<string>)
    ensures |newData| == |data|
    ensures forall i :: 0 <= i < |data| ==>
              newData[i] == AnalyzeRow(SortByDependencyCount(selected), cm, data[i], ar).row
    ensures newHeaders == Distinct(Events(SortByDependencyCount(selected), cm, data, ar))
  {
    newData, newHeaders := AnalyzeRows(data, cm, SortByDependencyCount(selected), ar);
  }

  /** The loop of `runAnalysis` over the rows, with the calculations sorted. */
  method AnalyzeRows(data: seq<Row>, cm: ColumnMap, calcs: seq<Calculation>, ar: Arithmetic)
    returns (newData: seq<Row>, newHeaders: seq<string>)
    ensures |newData| == |data|
    ensures forall i :: 0 <= i < |data| ==> newData[i] == AnalyzeRow(calcs, cm, data[i], ar).row
    ensures newHeaders == Distinct(Events(calcs, cm, data, ar))
  {
    newData, newHeaders := [], [];
    var i := 0;
    while i < |data|
      invariant 0 <= i <= |data|
      invariant |newData| == i
      invariant forall k :: 0 <= k < i ==> newData[k] == AnalyzeRow(calcs, cm, data[k], ar).row
      invariant newHeaders == Distinct(Events(calcs, cm, data[..i], ar))
    {
      ghost var before := Events(calcs, cm, data[..i], ar);
      var newRow;
      var std := StandardizeRow(cm, data[i]);
      newRow, newHeaders := AnalyzeRowInto(calcs, std, data[i], ar, newHeaders, before);
      assert data[..i + 1][..i] == data[..i];
      assert RowsFired(calcs, cm, data[..i + 1], ar) == RowsFired(calcs, cm, data[..i], ar) + [AnalyzeRow(calcs, cm, data[i], ar).fired];
      newData := newData + [newRow];
      i := i + 1;
    }
    assert data[..i] == data;
  }

  // ---------------------------------------------------------------------------
  // Properties of a row's run.

  /** A calculation writes its field exactly when its inputs are defined, its
      dependencies are computed and its function returns a non-null value; it
      then stores the same value under its `outputKey`. Otherwise nothing changes. */
  lemma StepFiresOnlyWhenReady(c: Calculation, std: Row, ar: Arithmetic, st: RowState)
    ensures var r := Step(c, std, ar, st);
      && (|r.fired| == |st.fired| + 1 <==>
            HasInputs(c, std) && HasDeps(c, st.calculated) && Apply(c, std, st.calculated, ar).Some?)
      && (|r.fired| == |st.fired| + 1 ==>
            var v := Apply(c, std, st.calculated, ar).value;
            r.fired[|st.fired|] == HeaderName(c) && r.row[HeaderName(c)] == Num(v)
            && r.calculated[c.outputKey] == v)
      && (|r.fired| != |st.fired| + 1 ==> r == st)
  {
  }

  /** Augmentation is additive: the row keeps every original field it did not
      overwrite with a display field, and gains exactly the display fields. */
  lemma {:induction false} RunCalculationsAdditive(calcs: seq<Calculation>, std: Row, ar: Arithmetic, original: Row)
    ensures var st := RunCalculations(calcs, std, ar, original);
      && (forall k :: k in st.row <==> k in original || k in st.fired)
      && (forall k :: k in original && k !in st.fired ==> st.row[k] == original[k])
      && (forall h :: h in st.fired ==> st.row[h].Num?)
  {
    if calcs != [] {
      RunCalculationsAdditive(calcs[..|calcs| - 1], std, ar, original);
    }
  }

  /** Every display field in a row was written by a selected calculation whose
      inputs that row defines. */
  lemma {:induction false} FiredHaveInputs(calcs: seq<Calculation>, std: Row, ar: Arithmetic, original: Row)
    ensures forall h :: h in RunCalculations(calcs, std, ar, original).fired ==>
              exists c :: c in calcs && HeaderName(c) == h && HasInputs(c, std)
  {
    if calcs != [] {
      var n := |calcs| - 1;
      FiredHaveInputs(calcs[..n], std, ar, original);
      forall h | h in RunCalculations(calcs, std, ar, original).fired
        ensures exists c :: c in calcs && HeaderName(c) == h && HasInputs(c, std)
      {
        if h in RunCalculations(calcs[..n], std, ar, original).fired {
          var c :| c in calcs[..n] && HeaderName(c) == h && HasInputs(c, std);
          assert c in calcs;
        } else {
          assert HeaderName(calcs[n]) == h && HasInputs(calcs[n], std);
        }
      }
    }
  }

  /** With every descriptor whose output is `internalEnergy` displayed as Internal
      Energy, and every descriptor displayed as Enthalpy depending on it, an
      Enthalpy field is never written to a row without an Internal Energy field. */
  lemma {:induction false} EnthalpyNeedsInternalEnergy(calcs: seq<Calculation>, std: Row, ar: Arithmetic, original: Row)
    requires forall c :: c in calcs && c.outputKey == InternalEnergy.outputKey ==>
               HeaderName(c) == HeaderName(InternalEnergy)
    requires forall c :: c in calcs && HeaderName(c) == HeaderName(Enthalpy) ==>
               InternalEnergy.outputKey in c.dependencies
    ensures var st := RunCalculations(calcs, std, ar, original);
      && (InternalEnergy.outputKey in st.calculated ==> HeaderName(InternalEnergy) in st.fired)
      && (HeaderName(Enthalpy) in st.fired ==> HeaderName(InternalEnergy) in st.fired)
  {
    if calcs != [] {
      var n := |calcs| - 1;
      assert forall c :: c in calcs[..n] ==> c in calcs;
      EnthalpyNeedsInternalEnergy(calcs[..n], std, ar, original);
      StepCases(calcs[n], std, ar, RunCalculations(calcs[..n], std, ar, original));
      assert calcs[n] in calcs;
    }
  }

  /** Both built-ins meet the conditions of `EnthalpyNeedsInternalEnergy`. */
  lemma BuiltinsChainEnthalpy()
    ensures forall c :: c in AvailableCalculations && c.outputKey == InternalEnergy.outputKey ==>
              HeaderName(c) == HeaderName(InternalEnergy)
    ensures forall c :: c in AvailableCalculations && HeaderName(c) == HeaderName(Enthalpy) ==>
              InternalEnergy.outputKey in c.dependencies
  {
    assert HeaderName(InternalEnergy) != HeaderName(Enthalpy) by {
      assert HeaderName(InternalEnergy)[0] == 'I';
    }
  }

  /** A mapped input whose value is `null` counts as present: Internal Energy
      runs on such a row but yields `null` (a falsy pressure), so the row gains
      no field, while a custom formula over the same key is evaluated. */
  lemma NullInputIsPresent(ar: Arithmetic, v: real)
    ensures var cm := [("pressure", "P"), ("volume", "V")];
      var row := map["P" := Null, "V" := Num(2.0)];
      var std := StandardRow(cm, row);
      var custom := Calculation("c", "Half", "pressure / 2", FormulaFunc(["pressure"], "pressure / 2"),
                                ["pressure"], [], "half", "kPa");
      && HasInputs(InternalEnergy, std)
      && RunCalculations([InternalEnergy], std, ar, row).row == row
      && HasInputs(custom, std)
      && Apply(custom, std, map[], ar) == ar.evaluate("pressure / 2", map["pressure" := Null])
  {
    var cm := [("pressure", "P"), ("volume", "V")];
    var row := map["P" := Null, "V" := Num(2.0)];
    assert cm[..1] == [("pressure", "P")] && cm[..1][..0] == [];
    assert StandardRow(cm[..1][..0], row) == map[];
    assert StandardRow(cm[..1], row) == map["pressure" := Null];
    var std := StandardRow(cm, row);
    assert std == map["pressure" := Null, "volume" := Num(2.0)];
    assert FormulaBindings(["pressure"], std) == map["pressure" := Null];
  }

  // ---------------------------------------------------------------------------
  // Properties of the whole run.

  /** `newHeaders` holds each display field written on some row exactly once,
      in the order in which the scan first wrote it. */
  lemma NewHeadersFirstSeen(calcs: seq<Calculation>, cm: ColumnMap, data: seq<Row>, ar: Arithmetic)
    ensures var events := Events(calcs, cm, data, ar);
      var hs := Distinct(events);
      && NoDup(hs)
      && (forall h :: h in hs <==> exists i :: 0 <= i < |data| && h in AnalyzeRow(calcs, cm, data[i], ar).fired)
      && (forall i, j :: 0 <= i < j < |hs| ==> FirstIndex(events, hs[i]) < FirstIndex(events, hs[j]))
  {
    var rows := RowsFired(calcs, cm, data, ar);
    FlattenMembership(rows);
    forall i | 0 <= i < |data| ensures rows[i] == AnalyzeRow(calcs, cm, data[i], ar).fired {
      RowsFiredAt(calcs, cm, data, ar, i);
    }
    DistinctFirstSeen(Events(calcs, cm, data, ar));
  }
}
