/** The calculation picker of `src/components/upload/AnalysisSelector.jsx`: the
    calculations whose inputs are all mapped, a list of selected ids toggled by
    checkboxes, custom formulas added to the registry, and the selection handed
    to the runner. */
module AnalysisSelector {
  import opened Values
  import opened Text
  import opened Seqs
  import opened ColumnMaps
  import opened Analysis
  import opened CustomFormula

  /** `columnMap[key]` is truthy: the key is mapped to a non-empty column. */
  predicate IsMapped(cm: ColumnMap, key: string)
  {
    Get(cm, key).Some? && Get(cm, key).value != ""
  }

  /** `calc.requiredInputs.every(key => columnMap[key])`. */
  predicate Selectable(c: Calculation, cm: ColumnMap)
  {
    forall key :: key in c.requiredInputs ==> IsMapped(cm, key)
  }

  /** `selectableCalculations`, in registry order. */
  function SelectableCalculations(all: seq<Calculation>, cm: ColumnMap): (r: seq<Calculation>)
    ensures forall c :: c in r <==> c in all && Selectable(c, cm)
  {
    Filter(all, c => Selectable(c, cm))
  }

  /** `Object.keys(columnMap).filter(k => columnMap[k])`: the keys offered to the formula dialog. */
  function MappedKeys(cm: ColumnMap): (r: seq<string>)
    ensures forall k :: k in r <==> IsMapped(cm, k)
  {
    Filter(Keys(cm), k => IsMapped(cm, k))
  }

  /** The registry entry for a saved formula: no dependencies, and a function
      that evaluates the formula on its variables. */
  function CustomCalculation(d: FormulaData, id: string): Calculation
  {
    Calculation(id, d.name, d.formula, FormulaFunc(d.requiredInputs, d.formula),
                d.requiredInputs, [], d.outputKey, d.outputUnit)
  }

  /** `allCalculations.filter(c => selectedIds.includes(c.id))`. */
  function SelectedCalculations(all: seq<Calculation>, selectedIds: seq<string>): (r: seq<Calculation>)
    ensures forall c :: c in r <==> c in all && c.id in selectedIds
  {
    Filter(all, (c: Calculation) => c.id in selectedIds)
  }

  /** The submitted calculations follow the registry: the order in which the
      ids were ticked does not matter, only which ids are ticked. */
  lemma SelectionOrderIrrelevant(all: seq<Calculation>, ids1: seq<string>, ids2: seq<string>)
    requires forall i :: i in ids1 <==> i in ids2
    ensures SelectedCalculations(all, ids1) == SelectedCalculations(all, ids2)
  {
    FilterAgree(all, (c: Calculation) => c.id in ids1, (c: Calculation) => c.id in ids2);
  }

  /** The ids of the calculations, in order. */
  function Ids(all: seq<Calculation>): seq<string>
  {
    seq(|all|, i requires 0 <= i < |all| => all[i].id)
  }

  /** The component's state. */
  class Selector {
    var allCalculations: seq<Calculation>
    var selectedIds: seq<string>

    /** A checkbox list never holds an id twice. */
    predicate Valid()
      reads this
    {
      NoDup(selectedIds)
    }

    constructor (availableCalculations: seq<Calculation>)
      ensures allCalculations == availableCalculations && selectedIds == []
      ensures Valid()
    {
      allCalculations := availableCalculations;
      selectedIds := [];
    }

    /** `handleToggle`: removes a selected id, appends an unselected one. */
    method Toggle(id: string)
      requires Valid()
      modifies this
      ensures Valid()
      ensures selectedIds == Seqs.Toggle(old(selectedIds), id)
      ensures allCalculations == old(allCalculations)
    {
      ToggleNoDup(selectedIds, id);
      if id in selectedIds {
        selectedIds := RemoveAll(selectedIds, id);
      } else {
        selectedIds := selectedIds + [id];
      }
    }

    /** `handleAddCustomFormula`: appends the saved formula under the id drawn for it. */
    method AddCustomFormula(d: FormulaData, id: string)
      modifies this
      ensures allCalculations == old(allCalculations) + [CustomCalculation(d, id)]
      ensures selectedIds == old(selectedIds)
    {
      allCalculations := allCalculations + [CustomCalculation(d, id)];
    }

    /** `handleSubmit`: the selected calculations, in registry order. */
    method Submit() returns (selected: seq<Calculation>)
      ensures selected == SelectedCalculations(allCalculations, selectedIds)
    {
      selected := SelectedCalculations(allCalculations, selectedIds);
    }

    /** The Run button is disabled while nothing is selected. */
    function RunDisabled(): (r: bool)
      reads this
      ensures r <==> |selectedIds| == 0
    {
      |selectedIds| == 0
    }
  }

  /** Adding a formula under an id not yet in use keeps the ids distinct, and a
      later toggle of that id selects exactly the new calculation. */
  lemma AddFreshId(all: seq<Calculation>, d: FormulaData, id: string)
    requires NoDup(Ids(all))
    requires id !in Ids(all)
    ensures NoDup(Ids(all + [CustomCalculation(d, id)]))
    ensures SelectedCalculations(all + [CustomCalculation(d, id)], [id]) == [CustomCalculation(d, id)]
  {
    var all' := all + [CustomCalculation(d, id)];
    assert Ids(all') == Ids(all) + [id];
    forall c | c in all ensures c.id != id {
      var i :| 0 <= i < |all| && all[i] == c;
      assert Ids(all)[i] == c.id;
    }
    FilterNone(all, (c: Calculation) => c.id in [id]);
    FilterAppend(all, [CustomCalculation(d, id)], (c: Calculation) => c.id in [id]);
  }

  /** The runner receives the calculations in registry order whatever order
      they were ticked in. */
  lemma SubmitKeepsRegistryOrder()
    ensures SelectedCalculations(AvailableCalculations, [Enthalpy.id, InternalEnergy.id]) == [InternalEnergy, Enthalpy]
  {
  }

  /** A formula the dialog accepted against the mapped keys is selectable. */
  lemma SavedFormulaSelectable(name: string, formula: string, unit: string, cm: ColumnMap,
                               evaluate: (string, Row) -> Option<real>, syntaxError: Option<string>, id: string)
    requires Validate(name, formula, unit, MappedKeys(cm), evaluate, syntaxError).Ok?
    ensures Selectable(CustomCalculation(Validate(name, formula, unit, MappedKeys(cm), evaluate, syntaxError).value, id), cm)
  {
  }

  /** A saved formula's output key is lower-case, so it never takes the place
      of the Internal Energy result that Enthalpy depends on. */
  lemma CustomKeyIsNotInternalEnergy(d: FormulaData, name: string, id: string)
    requires d.outputKey == OutputKey(name)
    ensures CustomCalculation(d, id).outputKey != InternalEnergy.outputKey
  {
    if |name| == |InternalEnergy.outputKey| {
      assert InternalEnergy.outputKey[8] == 'E';
      assert LowerChar(name[8]) != 'E';
    }
  }
}
