/** The multi-variable model set-up of `src/components/upload/VariableSelector.jsx`:
    two checkbox lists over the numeric headers, each excluding what the
    other has selected. */
module VariableSelector {
  import opened Values
  import opened Seqs
  import opened Experiments

  /** `CheckboxList`'s `handleToggle`: remove a present option, else append it. */
  function CheckboxToggle(selected: seq<string>, option: string): (r: seq<string>)
    ensures option in selected ==> r == RemoveAll(selected, option)
    ensures option !in selected ==> r == selected + [option]
  {
    Toggle(selected, option)
  }

  /** The selector's state. */
  class VariableSelection {
    const numericHeaders: seq<string>
    var independentVars: seq<string>
    var dependentVars: seq<string>

    /** No variable is both independent and dependent. */
    predicate Disjoint()
      reads this
    {
      forall v :: v in independentVars ==> v !in dependentVars
    }

    /** `availableIndependent`. */
    function AvailableIndependent(): (r: seq<string>)
      reads this
      ensures forall h :: h in r <==> h in numericHeaders && h !in dependentVars
    {
      var taken := dependentVars;
      Filter(numericHeaders, h => h !in taken)
    }

    /** `availableDependent`. */
    function AvailableDependent(): (r: seq<string>)
      reads this
      ensures forall h :: h in r <==> h in numericHeaders && h !in independentVars
    {
      var taken := independentVars;
      Filter(numericHeaders, h => h !in taken)
    }

    /** `canProceed`. */
    predicate CanProceed()
      reads this
    {
      |independentVars| > 0 && |dependentVars| > 0
    }

    constructor (experiment: Option<ExperimentData>)
      ensures numericHeaders == NumericHeaders(experiment)
      ensures independentVars == [] && dependentVars == []
      ensures Disjoint()
    {
      numericHeaders := NumericHeaders(experiment);
      independentVars, dependentVars := [], [];
    }

    /** A click in the independent list. An option the list offers never makes
        a variable both independent and dependent. */
    method ToggleIndependent(option: string)
      modifies this
      ensures independentVars == CheckboxToggle(old(independentVars), option)
      ensures dependentVars == old(dependentVars)
      ensures old(Disjoint()) && option in old(AvailableIndependent()) ==> Disjoint()
    {
      independentVars := CheckboxToggle(independentVars, option);
    }

    /** A click in the dependent list. */
    method ToggleDependent(option: string)
      modifies this
      ensures dependentVars == CheckboxToggle(old(dependentVars), option)
      ensures independentVars == old(independentVars)
      ensures old(Disjoint()) && option in old(AvailableDependent()) ==> Disjoint()
    {
      dependentVars := CheckboxToggle(dependentVars, option);
    }

    /** The proceed button: disabled unless both lists are non-empty; when
        enabled it hands over both selections. */
    method Proceed() returns (selection: Option<(seq<string>, seq<string>)>)
      ensures selection.Some? <==> |independentVars| > 0 && |dependentVars| > 0
      ensures selection.Some? ==> selection.value == (independentVars, dependentVars)
    {
      if CanProceed() {
        selection := Some((independentVars, dependentVars));
      } else {
        selection := None;
      }
    }
  }

  /** A numeric variable selected on one side stays checkable on that side:
      with disjoint selections it is among the options of its own list. */
  lemma SelectedStayOffered(s: VariableSelection, v: string)
    requires s.Disjoint() && v in s.numericHeaders
    ensures v in s.independentVars ==> v in s.AvailableIndependent()
    ensures v in s.dependentVars ==> v in s.AvailableDependent()
  {
  }
}
