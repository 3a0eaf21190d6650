# Tabular ingestion and derived-metric pipeline, in Dafny

This project models the tabular-data pipeline of a React/Firebase app for
experimental data, and proves properties of that model. The pipeline:

- reads a spreadsheet whose first two rows are a primary header row and a
  unit row;
- flattens those two rows into one header per column and coerces every data
  cell to `null`, a number or a string;
- also builds tables from OCR text and from a hand-edited grid;
- maps semantic keys (`pressure`, `volume`, …) onto the detected columns;
- lets the user select built-in calculations, or author a custom formula over
  the mapped keys;
- runs the selected calculations row by row, in ascending order of their
  dependency count, producing augmented rows and a list of new headers.

Around that pipeline sit smaller pieces, modelled as well:

- the heat-map's axes and Z grid;
- the public-experiment search and its five-per-page pager;
- the variable pickers of the model wizard and of the experiment page;
- the wizard's step machine;
- the layout store's two flags.

Modules follow the source files:

| file | module | models |
|---|---|---|
| `values.dfy` | `Values` | JavaScript values (`null`, number, string, boolean), row objects, truthiness |
| `text.dfy` | `Text` | `\s`, `trim`, ASCII `toLowerCase`, `includes`, `join`, decimal digits |
| `seqs.dfy` | `Seqs` | `filter`, `[...new Set(xs)]`, the add-or-remove toggle, removal by index |
| `column_map.dfy` | `ColumnMaps` | the semantic-key → column object as an ordered association list |
| `analysis.dfy` | `Analysis` | `src/lib/analysis.js` |
| `upload_page.dfy` | `UploadPage` | the parser inside `src/pages/UploadPage.jsx` |
| `custom_formula_modal.dfy` | `CustomFormula` | `CustomFormulaModal.jsx` |
| `column_mapper.dfy` | `ColumnMapper` | `ColumnMapper.jsx` |
| `analysis_selector.dfy` | `AnalysisSelector` | `AnalysisSelector.jsx` |
| `grid.dfy` | `Grids` | table columns `{id, name}` shared by the OCR and manual-entry tables |
| `ocr_dropzone.dfy` | `OcrText` | `parseOcrText` |
| `manual_data_entry.dfy` | `ManualEntry` | `ManualDataEntry.jsx` |
| `heatmap_chart.dfy` | `Heatmap` | `HeatmapChart.jsx` |
| `extract_page.dfy` | `ExtractPage` | `src/pages/ExtractPage.jsx` |
| `experiment.dfy` | `Experiments` | the numeric-header filter that three components each write out |
| `variable_selector.dfy` | `VariableSelector` | `VariableSelector.jsx` |
| `select_module_page.dfy` | `SelectModule` | `src/pages/SelectModulePage.jsx` |
| `experiment_detail_page.dfy` | `ExperimentDetail` | the axis state of `src/pages/ExperimentDetailPage.jsx` |
| `layout_store.dfy` | `Layout` | `src/hooks/useLayoutStore.js` |

## How the model represents the source

- **Values and `undefined`.** A missing key of a row map, or `None`, stands
  for `undefined`. `Null` stands for `null`.
- **Inputs handed over as parameters.** These are:
  - number-to-string rendering (`String(n)`);
  - string-to-number parsing (`Number(s)`);
  - the built-in unit arithmetic;
  - the compiled custom formula, together with the `SyntaxError` that
    `new Function` may throw.
- **State that handlers change.** This becomes a class whose methods reassign
  `seq` fields, as the React setters replace arrays. This covers the dialog,
  the selectors, the manual-entry grid, the pager, the wizard and the store.
- **Loops and pure code.**
  - Loops of the source become methods with loop invariants. Each is proved
    equal to a recursive specification function. Examples: the header scan,
    the row-object fill, the OCR row padding, the `dataMap` fill, the
    standardized row and the analysis loops.
  - Pure `map`/`filter` code stays as functions.

Behaviour a reader might not expect:

- **Empty labels.** A column before any named primary, with no unit, is
  labelled `""` (`UploadPage.NoPositionalFallback`). Two columns may share a
  label; the later column's value wins (`UploadPage.RowObjectLastWins`).
- **Which primaries forward-fill.** Only a `null` primary or an
  `Unnamed…` one inherits the running primary. A blank string primary gives an
  empty main header and does not replace the running one.
- **Untrimmed text.** A non-numeric string cell keeps its original, untrimmed
  text.
- **`null` is present.** A mapped input whose value is `null` counts as
  present. Only an absent field (`undefined`) stops a calculation
  (`Analysis.NullInputIsPresent`).
- **Registry order, no re-check.** Submitted calculations come back in
  registry order, not selection order, and the mapping is not re-checked
  (`AnalysisSelector.SelectionOrderIrrelevant`,
  `AnalysisSelector.SubmitKeepsRegistryOrder`).
- **Exponents read as identifiers.** The identifier scan reads the exponent
  of a literal such as `2e3` as the identifier `e3`. A formula using it is
  rejected as unmapped (`CustomFormula.ExponentIsAnIdentifier`).

## Model

| member | source | states |
|---|---|---|
| Analysis.CalculateInternalEnergy | src/lib/analysis.js:2-13 | a value is produced exactly when the standardized row's `pressure` and `volume` are both truthy; otherwise `null` |
| Analysis.CalculateEnthalpy | src/lib/analysis.js:16-28 | a value is produced exactly when `pressure` and `volume` are truthy and `internalEnergy` is already in the row's calculated data |
| Analysis.BuiltinsChainEnthalpy | src/lib/analysis.js:31-51 | in the built-in registry only Internal Energy writes `internalEnergy`, and Enthalpy depends on it |
| Analysis.InsertByDependencies | src/lib/analysis.js:62-64 | inserting adds exactly the one calculation to the list's multiset |
| Analysis.InsertBounded | src/lib/analysis.js:62-64 | inserting a calculation with at least `k` dependencies into a list whose members all have at least `k` keeps that bound |
| Analysis.InsertSorted | src/lib/analysis.js:62-64 | inserting keeps a list sorted by dependency count (a missing list counts 0) |
| Analysis.SortByDependencyCount | src/lib/analysis.js:62-64 | the run order is ascending in dependency count and a permutation of the selection |
| Analysis.InsertKeepsTies | src/lib/analysis.js:62-64 | insertion puts a calculation ahead of the others with its count, whose order is kept |
| Analysis.SortIsStable | src/lib/analysis.js:62-64 | for every count, the calculations with that count keep the caller's order (the sort is stable) |
| Analysis.StandardizeRow | src/lib/analysis.js:69-72 | the loop over the column map's entries builds the standardized row its recursive specification describes |
| Analysis.StandardRowLookup | src/lib/analysis.js:69-72 | for a map without repeated keys, a semantic key is in the standardized row iff it is mapped to a field the row has, and then holds that field's value |
| Analysis.StepFiresOnlyWhenReady | src/lib/analysis.js:78-96 | one calculation adds a header iff its inputs are present, its dependencies are calculated and its result is non-null; it then sets `"{name} ({unit})"` in the row and `outputKey` in the calculated data to the result, and otherwise changes nothing |
| Analysis.RunCalculationsSnoc | src/lib/analysis.js:78-97 | running a prefix of the calculations and then one more is the same as running the longer prefix |
| Analysis.RunCalculationsAdditive | src/lib/analysis.js:76-90 | the output row holds the original fields plus the produced headers; an original field that is not a produced header keeps its value; produced headers hold numbers |
| Analysis.FiredHaveInputs | src/lib/analysis.js:80-84 | every produced header comes from a selected calculation whose required inputs were all present |
| Analysis.NullInputIsPresent | src/lib/analysis.js:80 | a `null` mapped value passes the input check: a built-in still returns `null` on a falsy pressure, while a custom formula is evaluated with `null` bound |
| Analysis.EnthalpyNeedsInternalEnergy | src/lib/analysis.js:82-90 | with the built-in wiring, an Enthalpy header never appears in a row without the Internal Energy header |
| Analysis.StepInto | src/lib/analysis.js:78-96 | one pass of the inner loop makes the step of its specification and pushes the header only when it is new |
| Analysis.AnalyzeRowInto | src/lib/analysis.js:75-97 | the inner loop builds the row its specification describes and extends the header list with exactly the first-seen new headers |
| Analysis.AnalyzeRows | src/lib/analysis.js:66-99 | one output row per input row, in order, each the analysed row; `newHeaders` is the distinct headers produced across the scan |
| Analysis.RunAnalysis | src/lib/analysis.js:60-102 | `runAnalysis` runs the dependency-sorted copy of the selection over every row, with the same guarantees |
| Analysis.NewHeadersFirstSeen | src/lib/analysis.js:92-94 | `newHeaders` has no duplicates, holds exactly the headers produced in some row, and lists them in first-seen order |
| ColumnMaps.Get | src/components/upload/ColumnMapper.jsx:44 | a lookup succeeds iff the key is in the map, and returns a value stored under it |
| ColumnMaps.Assign | src/components/upload/ColumnMapper.jsx:21-23 | `{...prev, [key]: value}` binds the key to the value, leaves every other key's value alone and adds no other entry |
| ColumnMaps.AssignKeys | src/components/upload/ColumnMapper.jsx:22 | an existing key keeps its position and a new key goes last, as JavaScript property order has it |
| ColumnMaps.AssignWellFormed | src/components/upload/ColumnMapper.jsx:22 | assignment never creates a repeated key |
| ColumnMapper.ConcatInputs | src/components/upload/ColumnMapper.jsx:14 | the flat list holds exactly the required inputs of some calculation |
| ColumnMapper.AllRequiredInputs | src/components/upload/ColumnMapper.jsx:13-15 | `allRequiredInputs` has no duplicates and holds exactly the inputs some calculation requires |
| ColumnMapper.InitialMapping | src/components/upload/ColumnMapper.jsx:17-19 | the initial mapping has the distinct inputs as keys, in order, each mapped to `''` |
| ColumnMapper.LabelFor | src/components/upload/ColumnMapper.jsx:6-9 | as looked up at line 40, `pressure` is labelled `Select variable on X axis`, `volume` `Select variable on Y axis`, and any other key `Select {key} column` |
| ColumnMapper.ColumnMapperState.constructor | src/components/upload/ColumnMapper.jsx:13-19 | the state starts from the initial mapping and satisfies the mapper's invariant |
| ColumnMapper.ColumnMapperState.SelectChange | src/components/upload/ColumnMapper.jsx:21-23 | a change sets one key, leaves the other keys and the key order unchanged, and keeps every value `''` or a detected header |
| ColumnMapper.ColumnMapperState.Submit | src/components/upload/ColumnMapper.jsx:25-28 | the mapping is handed over unchanged: keys are the required inputs, values `''` or detected headers |
| AnalysisSelector.SelectableCalculations | src/components/upload/AnalysisSelector.jsx:13-15 | a calculation is listed iff every required input is mapped to a non-empty column |
| AnalysisSelector.MappedKeys | src/components/upload/AnalysisSelector.jsx:82 | the keys offered to the formula dialog are exactly those mapped to a non-empty column |
| AnalysisSelector.SelectedCalculations | src/components/upload/AnalysisSelector.jsx:35 | submit keeps exactly the registry entries whose id is selected |
| AnalysisSelector.Selector.constructor | src/components/upload/AnalysisSelector.jsx:8-9 | the registry starts as the given calculations with nothing selected |
| AnalysisSelector.Selector.Toggle | src/components/upload/AnalysisSelector.jsx:17-21 | the selected ids become the toggle of the old ids and stay duplicate-free |
| AnalysisSelector.Selector.AddCustomFormula | src/components/upload/AnalysisSelector.jsx:23-29 | exactly one calculation, carrying the new id, is appended; earlier ones and the selection are unchanged |
| AnalysisSelector.Selector.Submit | src/components/upload/AnalysisSelector.jsx:32-36 | submit returns the selected calculations in registry order |
| AnalysisSelector.Selector.RunDisabled | src/components/upload/AnalysisSelector.jsx:73 | Run is disabled iff no id is selected |
| AnalysisSelector.AddFreshId | src/components/upload/AnalysisSelector.jsx:23-29 | a fresh id keeps the registry's ids distinct, and selecting it submits exactly the new calculation |
| AnalysisSelector.SelectionOrderIrrelevant | src/components/upload/AnalysisSelector.jsx:35 | two selections with the same ids submit the same calculations in the same (registry) order, whatever order they were ticked in |
| AnalysisSelector.SubmitKeepsRegistryOrder | src/components/upload/AnalysisSelector.jsx:35 | selecting Enthalpy before Internal Energy still submits Internal Energy first |
| AnalysisSelector.SavedFormulaSelectable | src/components/upload/AnalysisSelector.jsx:13-15 | a formula the dialog accepts over the mapped keys is itself selectable |
| AnalysisSelector.CustomKeyIsNotInternalEnergy | src/components/upload/CustomFormulaModal.jsx:55 | a derived output key never equals `internalEnergy`, because it has no upper-case letter |
| Seqs.Toggle | src/components/upload/AnalysisSelector.jsx:17-21 | the toggled id is present afterwards iff it was absent, other ids are unchanged, an absent id is appended, and a present one is filtered out with the others kept in order |
| Seqs.RemoveAllIsFilter | src/components/upload/AnalysisSelector.jsx:19 | removing an id is `filter(id => id !== x)`, which keeps the other ids in order |
| Seqs.FilterAgree | src/components/upload/AnalysisSelector.jsx:35 | a filter depends only on what its predicate says about the elements present |
| Seqs.ToggleNoDup | src/components/upload/AnalysisSelector.jsx:17-21 | toggling keeps a duplicate-free list duplicate-free |
| Seqs.ToggleTwice | src/components/upload/AnalysisSelector.jsx:17-21 | toggling an absent id twice restores the list |
| Seqs.Distinct | src/components/upload/CustomFormulaModal.jsx:22 | `[...new Set(xs)]` has no duplicates and the same members as `xs` |
| Seqs.DistinctFirstSeen | src/components/upload/ColumnMapper.jsx:14 | the de-duplicated list is ordered by each member's first occurrence |
| Seqs.AppendNewDistinct | src/lib/analysis.js:92-94 | pushing each header not yet present onto a de-duplicated list is de-duplicating the whole sequence |
| Seqs.RemoveAt | src/components/upload/ManualDataEntry.jsx:38 | `filter((_, i) => i !== index)` drops exactly position `index` when it is in range, and nothing otherwise |
| Text.LeadFrom | src/pages/UploadPage.jsx:85 | the scan from `i` stops at the first non-whitespace character and passes only whitespace |
| Text.TrailTo | src/pages/UploadPage.jsx:85 | the backward scan stops just past the last non-whitespace character and passes only whitespace |
| Text.TrimSlice | src/pages/UploadPage.jsx:85 | `trim()` returns one contiguous slice of its input and drops only whitespace on either side |
| Text.TrimEnds | src/pages/UploadPage.jsx:115 | trimmed text has no whitespace at either end |
| Text.TrimNoWhitespace | src/pages/UploadPage.jsx:85 | a string without whitespace is its own trim |
| Text.TrimEmptyIffBlank | src/components/upload/OcrDropzone.jsx:9 | a string trims to `''` iff it is all whitespace |
| Text.ContainsAt | src/pages/ExtractPage.jsx:43 | `includes` holds iff the term occurs at some position |
| CustomFormula.Matches | src/components/upload/CustomFormulaModal.jsx:6 | every match of the global identifier expression is an identifier |
| CustomFormula.MatchesIdentifier | src/components/upload/CustomFormulaModal.jsx:6 | an identifier on its own is its only match |
| CustomFormula.FirstMatchInside | src/components/upload/CustomFormulaModal.jsx:6 | a match that starts before a non-identifier character ends before it |
| CustomFormula.MatchesSeparated | src/components/upload/CustomFormulaModal.jsx:6 | matches split at any character that cannot occur in an identifier |
| CustomFormula.ExponentIsAnIdentifier | src/components/upload/CustomFormulaModal.jsx:6 | `2e3` yields the single match `e3` |
| CustomFormula.ExtractVariables | src/components/upload/CustomFormulaModal.jsx:22 | the variables are the distinct matches, all identifiers |
| CustomFormula.Unmapped | src/components/upload/CustomFormulaModal.jsx:25 | the unmapped list holds exactly the variables outside the mapped keys |
| CustomFormula.OutputKey | src/components/upload/CustomFormulaModal.jsx:55 | same length as the name, no whitespace, each character lower-cased or `_` for whitespace |
| CustomFormula.OutputKeyIdempotent | src/components/upload/CustomFormulaModal.jsx:55 | deriving a key from a key changes nothing |
| CustomFormula.Validate | src/components/upload/CustomFormulaModal.jsx:14-59 | an empty field gives the fill-out message; unmapped variables give the listing message; success holds iff the fields are filled, every match is a mapped key, the formula compiles and the smoke test passes or no key is mapped; on success `requiredInputs` are the variables and `outputKey` is the derived key |
| CustomFormula.SmokeTestBindsOne | src/components/upload/CustomFormulaModal.jsx:47 | an accepted formula was tested with every variable bound to 1 |
| CustomFormula.FormulaModal.constructor | src/components/upload/CustomFormulaModal.jsx:9-12 | the dialog starts with empty fields and no error |
| CustomFormula.FormulaModal.Save | src/components/upload/CustomFormulaModal.jsx:14-70 | on success the data is returned and the fields reset to empty; on failure the error is shown, nothing is saved and the fields are kept |
| UploadPage.ParseGrid | src/pages/UploadPage.jsx:72-128 | a grid of fewer than 3 rows is rejected with the message; otherwise headers are the flattened labels and there is one row object per data row, in order |
| UploadPage.ScanHeaders | src/pages/UploadPage.jsx:83-100 | one label per primary cell |
| UploadPage.FlattenHeaders | src/pages/UploadPage.jsx:80-100 | the `forEach` loop produces the labels of the header scan |
| UploadPage.FinalHeader | src/pages/UploadPage.jsx:92-97 | the label is `{primary} ({sub})` exactly when the unit is non-empty and differs from the primary ignoring case, and the bare primary otherwise |
| UploadPage.LastNamedPrimary | src/pages/UploadPage.jsx:84-90 | the running primary is `''` or the trimmed text of some named primary cell |
| UploadPage.ScanCurrent | src/pages/UploadPage.jsx:84-90 | the scan's running primary is the last non-empty trimmed named primary |
| UploadPage.LastLabel | src/pages/UploadPage.jsx:83-99 | the last column's label is built from its forward-filled primary and its unit |
| UploadPage.FlattenedLabel | src/pages/UploadPage.jsx:83-99 | label `i` is built from the forward-filled primary at `i` and the trimmed truthy unit cell at `i` |
| UploadPage.NoPositionalFallback | src/pages/UploadPage.jsx:81-94 | an unnamed first column without a unit gets the empty label |
| UploadPage.CoerceCell | src/pages/UploadPage.jsx:108-125 | missing, `null` and blank strings become `null` whatever the parser says about `''`; numbers and booleans are kept; a non-blank string whose trimmed text parses becomes that number; any other string is kept untrimmed; and each kind of result arises only in its case |
| UploadPage.CoerceIdempotent | src/pages/UploadPage.jsx:110-122 | coercing a coerced cell changes nothing |
| UploadPage.BuildRowObject | src/pages/UploadPage.jsx:106-126 | the field-by-field loop builds the row object of its specification |
| UploadPage.RowObjectKeys | src/pages/UploadPage.jsx:107-111 | the row object's keys are exactly the headers |
| UploadPage.RowObjectLastWins | src/pages/UploadPage.jsx:107-111 | a header holds the coerced cell of the last column carrying it |
| OcrText.SplitLines | src/components/upload/OcrDropzone.jsx:9 | `split('\n')` gives at least one piece and no piece holds a newline |
| OcrText.SplitLinesJoin | src/components/upload/OcrDropzone.jsx:9 | joining the pieces with newlines gives the text back |
| OcrText.Tokens | src/components/upload/OcrDropzone.jsx:10 | every token is non-empty and free of whitespace |
| OcrText.TokensSeparated | src/components/upload/OcrDropzone.jsx:10 | tokens split at any whitespace character |
| OcrText.TokensWord | src/components/upload/OcrDropzone.jsx:10 | a word without whitespace is its own single token |
| OcrText.TokensJoin | src/components/upload/OcrDropzone.jsx:10 | tokenizing words joined by spaces gives the words back |
| OcrText.BlankLines | src/components/upload/OcrDropzone.jsx:9 | every line of an all-whitespace text is all whitespace |
| OcrText.BlankTextIsEmpty | src/components/upload/OcrDropzone.jsx:9-12 | text without a non-blank line yields no rows |
| OcrText.HeaderColumns | src/components/upload/OcrDropzone.jsx:19-22 | one column per header token, with id `col{i+1}` and the token as name |
| OcrText.Fit | src/components/upload/OcrDropzone.jsx:25-29 | a fitted row has exactly the width, keeps the row's tokens within it and pads with `''` |
| OcrText.PadRow | src/components/upload/OcrDropzone.jsx:26-28 | the padding loop plus `slice` yields the fitted row |
| OcrText.ParseOcrText | src/components/upload/OcrDropzone.jsx:8-32 | no token rows give no columns and no data; otherwise the first row gives the columns and every later row is fitted to their count, in order |
| OcrText.ParsedTable | src/components/upload/OcrDropzone.jsx:15-28 | column names are the header tokens, and every cell is `''` or whitespace-free |
| Grids.Blanks | src/components/upload/ManualDataEntry.jsx:22 | `Array(n).fill('')` has `n` empty cells |
| ManualEntry.AppendBlankCell | src/components/upload/ManualDataEntry.jsx:18 | every row gains one trailing `''` |
| ManualEntry.RemoveCell | src/components/upload/ManualDataEntry.jsx:39 | every row loses cell `index` |
| ManualEntry.ColumnIdsCanRepeat | src/components/upload/ManualDataEntry.jsx:15-19 | removing the first column and adding one repeats the id `col2` |
| ManualEntry.ManualEntryTable.constructor | src/components/upload/ManualDataEntry.jsx:6-13 | the table starts with the Pressure/Volume columns and two rectangular rows |
| ManualEntry.ManualEntryTable.AddColumn | src/components/upload/ManualDataEntry.jsx:15-19 | one `New Column` with id `col{n+1}` is appended and every row gains `''`; rectangular |
| ManualEntry.ManualEntryTable.AddRow | src/components/upload/ManualDataEntry.jsx:21-23 | one row of `columns.length` blanks is appended; rectangular |
| ManualEntry.ManualEntryTable.RenameColumn | src/components/upload/ManualDataEntry.jsx:25-29 | only that column's name changes |
| ManualEntry.ManualEntryTable.EditCell | src/components/upload/ManualDataEntry.jsx:31-35 | only that cell changes |
| ManualEntry.ManualEntryTable.RemoveColumn | src/components/upload/ManualDataEntry.jsx:37-40 | the column and cell `index` of every row go, the rest keep their order; rectangular |
| ManualEntry.ManualEntryTable.RemoveRow | src/components/upload/ManualDataEntry.jsx:42-44 | only that row goes; rectangular |
| ManualEntry.ManualEntryTable.Submit | src/components/upload/ManualDataEntry.jsx:46-49 | the submitted table is rectangular |
| Heatmap.InsertAsc | src/components/visualization/HeatmapChart.jsx:8 | insertion adds exactly the one value to the list's multiset |
| Heatmap.InsertAscBounded | src/components/visualization/HeatmapChart.jsx:8 | insertion keeps a lower bound that the inserted value meets |
| Heatmap.InsertAscSorted | src/components/visualization/HeatmapChart.jsx:8 | insertion keeps a list ascending |
| Heatmap.SortAsc | src/components/visualization/HeatmapChart.jsx:8 | the numeric sort is ascending and a permutation |
| Heatmap.AxisValues | src/components/visualization/HeatmapChart.jsx:8-9 | an axis is strictly ascending and holds exactly the values that occur |
| Heatmap.DistinctCount | src/components/visualization/HeatmapChart.jsx:8 | the `Set` holds each value once |
| Heatmap.BuildDataMap | src/components/visualization/HeatmapChart.jsx:12-15 | the `forEach` loop builds the map of its specification |
| Heatmap.DataMapLastWins | src/components/visualization/HeatmapChart.jsx:13-15 | a key is present iff some row has that X and Y, and holds the Z of the last such row |
| Heatmap.Lookup | src/components/visualization/HeatmapChart.jsx:20 | the cell is truthy or `null`, and a non-null cell is the stored Z |
| Heatmap.ZGrid | src/components/visualization/HeatmapChart.jsx:18-22 | one row per Y value and one column per X value |
| Heatmap.Build | src/components/visualization/HeatmapChart.jsx:8-22 | the chart data is the two axes and the grid over the built map |
| Heatmap.ZCell | src/components/visualization/HeatmapChart.jsx:13-22 | cell (i, j) is the last matching row's Z when truthy, and `null` when it is falsy or no row matches |
| ExtractPage.Complete | src/pages/ExtractPage.jsx:35 | exactly the experiments with non-empty title, description and author are kept |
| ExtractPage.Search | src/pages/ExtractPage.jsx:40-47 | exactly the experiments whose title, description or author contains the term, ignoring case, are kept |
| ExtractPage.EmptySearchKeepsAll | src/pages/ExtractPage.jsx:42-46 | the empty term keeps every experiment in order |
| ExtractPage.TotalPages | src/pages/ExtractPage.jsx:50 | the page count is the ceiling of count / 5 |
| ExtractPage.Slice | src/pages/ExtractPage.jsx:51-54 | `slice` with non-negative bounds is the clamped subsequence |
| ExtractPage.PageContents | src/pages/ExtractPage.jsx:51-54 | a page in range shows 1 to 5 items, `filtered[(p-1)*5 .. p*5)`, in order |
| ExtractPage.PagePastEnd | src/pages/ExtractPage.jsx:51-54 | a page past the last is empty |
| ExtractPage.FirstPagesPrefix | src/pages/ExtractPage.jsx:51-54 | the first `k` pages together are the first `5k` items |
| ExtractPage.PagesCoverFiltered | src/pages/ExtractPage.jsx:50-54 | all pages together are the filtered list |
| ExtractPage.ExtractView.constructor | src/pages/ExtractPage.jsx:21-35 | the view starts with the complete experiments, an empty search and page 1 |
| ExtractPage.ExtractView.NextPage | src/pages/ExtractPage.jsx:56-58 | the page becomes min(p+1, total); an enabled Next moves one page on |
| ExtractPage.ExtractView.PrevPage | src/pages/ExtractPage.jsx:60-62 | the page becomes max(p-1, 1); an enabled Previous moves one page back |
| ExtractPage.ExtractView.SetSearchTerm | src/pages/ExtractPage.jsx:82-85 | a new search term resets the page to 1 |
| Experiments.NumericHeaders | src/components/upload/VariableSelector.jsx:42-46 | the headers whose first-row value is a number; no data gives `[]` |
| Experiments.AllNumericKept | src/pages/ExperimentDetailPage.jsx:81-85 | with every header numeric, the filter keeps the header list whole |
| VariableSelector.CheckboxToggle | src/components/upload/VariableSelector.jsx:6-12 | a present option is removed, an absent one appended |
| VariableSelector.VariableSelection.AvailableIndependent | src/components/upload/VariableSelector.jsx:49 | the independent options are the numeric headers not selected as dependent |
| VariableSelector.VariableSelection.AvailableDependent | src/components/upload/VariableSelector.jsx:50 | the dependent options are the numeric headers not selected as independent |
| VariableSelector.VariableSelection.constructor | src/components/upload/VariableSelector.jsx:38-46 | both selections start empty |
| VariableSelector.VariableSelection.ToggleIndependent | src/components/upload/VariableSelector.jsx:62-67 | the independent list is toggled; an offered option keeps the two lists disjoint |
| VariableSelector.VariableSelection.ToggleDependent | src/components/upload/VariableSelector.jsx:68-73 | the dependent list is toggled; an offered option keeps the two lists disjoint |
| VariableSelector.VariableSelection.Proceed | src/components/upload/VariableSelector.jsx:52-77 | proceeding is possible iff both lists are non-empty, and hands over both |
| VariableSelector.SelectedStayOffered | src/components/upload/VariableSelector.jsx:49-50 | a selected numeric variable stays among its own list's options |
| SelectModule.HeaderOptions | src/pages/SelectModulePage.jsx:69-76 | each numeric header `h` becomes `{id: h, name: h}`, in order |
| SelectModule.OnlyHeatmapSelectable | src/pages/SelectModulePage.jsx:78-81 | the only enabled model is the heat map |
| SelectModule.Wizard.YOptions | src/pages/SelectModulePage.jsx:167 | the Y options are the numeric headers other than X |
| SelectModule.Wizard.ZOptions | src/pages/SelectModulePage.jsx:174 | the Z options are the numeric headers other than X and Y |
| SelectModule.Wizard.constructor | src/pages/SelectModulePage.jsx:50-55 | step 0, nothing selected |
| SelectModule.Wizard.Proceed | src/pages/SelectModulePage.jsx:84-86 | the step grows by exactly 1; pressed while enabled, every passed step had its input |
| SelectModule.Wizard.ResetFlow | src/pages/SelectModulePage.jsx:88-93 | step 0, no experiment, no model, empty X, Y and Z |
| SelectModule.Wizard.SelectExperiment | src/pages/SelectModulePage.jsx:113 | only the experiment changes |
| SelectModule.Wizard.SelectModel | src/pages/SelectModulePage.jsx:126 | only the model changes, and a disabled model cannot be chosen |
| SelectModule.Wizard.ChooseX | src/pages/SelectModulePage.jsx:159 | only X changes |
| SelectModule.Wizard.ChooseY | src/pages/SelectModulePage.jsx:166 | only Y changes; an offered Y differs from X |
| SelectModule.Wizard.ChooseZ | src/pages/SelectModulePage.jsx:173 | only Z changes; an offered Z differs from X and Y |
| ExperimentDetail.Axes.constructor | src/pages/ExperimentDetailPage.jsx:78-79 | X starts `''` and Y `[]` |
| ExperimentDetail.Axes.ApplyDefaults | src/pages/ExperimentDetailPage.jsx:87-96 | X is the first numeric header; Y is `[second]` with two or more, `[first]` with one; with none both stay as they were |
| ExperimentDetail.Axes.ChooseX | src/pages/ExperimentDetailPage.jsx:355 | only X changes |
| ExperimentDetail.Axes.ChooseY | src/pages/ExperimentDetailPage.jsx:361 | the Y list becomes the single chosen key |
| ExperimentDetail.YOptions | src/pages/ExperimentDetailPage.jsx:362 | the Y options are the numeric headers other than X |
| ExperimentDetail.DefaultsDiffer | src/pages/ExperimentDetailPage.jsx:87-95 | with two or more distinct numeric headers the default axes differ and the default Y is offered |
| Layout.LayoutStore.constructor | src/hooks/useLayoutStore.js:3-11 | both flags start false |
| Layout.LayoutStore.SetIsCollapsed | src/hooks/useLayoutStore.js:5 | only `isCollapsed` changes, to the value |
| Layout.LayoutStore.ToggleCollapse | src/hooks/useLayoutStore.js:6 | only `isCollapsed` changes, to its negation |
| Layout.LayoutStore.SetSidebarOpen | src/hooks/useLayoutStore.js:10 | only `sidebarOpen` changes, to the value |
| Layout.ToggleTwice | src/hooks/useLayoutStore.js:6 | toggling twice restores both flags |

## Left out

- **Firebase, file decoding and export.** Firestore/Storage reads and writes,
  `FileReader`, `XLSX.read`/`sheet_to_json` and the xlsx/PDF export are I/O.
  The model takes the decoded grid or experiment list as input. Cells are
  limited to `null`, numbers, strings and booleans, the types
  `sheet_to_json` yields for this parser.
- **OCR.** The Tesseract worker and its progress callback are external; only
  `parseOcrText` is modelled.
- **Dynamic code.** `new Function` and the formula's evaluation are
  parameters: an evaluator from bindings to an optional number, and the
  syntax error it may throw. The dialog's evaluator (`CustomFormula.Validate`)
  and the runner's (`Arithmetic.evaluate` in `Analysis`) are separate
  parameters, so a formula that passed the dialog's smoke test is not shown
  to produce a value when the analysis runs; the two call the same
  `new Function` in the app, which is not modelled.
- **Floating point.** The kPa/L arithmetic, `toFixed(3)`/`parseFloat`
  rounding, `Number()` parsing and `String(number)` rendering are left out.
  Numbers are reals, and parsing and rendering are parameters.
- **Unicode.** `toLowerCase` is modelled on ASCII letters only.
- **Rendering.** View code, charts and the Plotly figure are left out.
  The correlation/dependency-strength matrix is left out too: no modelled
  file computes one.
- **Column-id uniqueness.** Uniqueness of manual-entry column ids is not
  claimed. It fails after a removal (`ManualEntry.ColumnIdsCanRepeat`).
- ManualEntry.ManualEntryTable: `columns` and `data` are `seq` fields that
  each handler reassigns. The in-place writes of `handleColumnNameChange` and
  `handleCellChange` into the shared arrays, and the aliasing they cause
  between old and new state, are not modelled.
- ManualEntry.ManualEntryTable.RenameColumn: requires an index within the
  columns, and EditCell a cell within the grid, as the rendered inputs
  guarantee. Out-of-range writes, which JavaScript would throw on or use to
  grow a row, are not modelled.
- Heatmap.Build: the X and Y values are taken as numbers. `sort((a, b) => a - b)`
  on non-numeric values, and `NaN`, are not modelled. With numeric keys the
  `${x}_${y}` string key is modelled as the pair (x, y).
- ExtractPage.Experiment: a missing title, description or author is modelled
  as `''`. Non-string field values are not modelled.
- SelectModule.Wizard: the experiment list query and the step-3 chart are not
  modelled. The select handlers are modelled as plain setters.
- **useAuthStore.** It is driven by a Firebase auth callback and is not part
  of this model.
