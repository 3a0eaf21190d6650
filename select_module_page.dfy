/** The analysis wizard of `src/pages/SelectModulePage.jsx`: step 0 picks an
    experiment, step 1 a model, step 2 the heat-map's X, Y and Z variables, and
    step 3 shows the result. */
module SelectModule {
  import opened Values
  import opened Seqs
  import opened Experiments

  /** A `Select` option: `{ id, name }`. */
  datatype SelectOption = SelectOption(id: string, name: string)

  /** An entry of `analysisModels`. */
  datatype Model = Model(id: string, name: string, disabled: bool)

  const AnalysisModels: seq<Model> := [
    Model("heatmap", "Heatmap Generator", false),
    Model("multimodel", "Multi-Variable Model (Coming Soon)", true)
  ]

  /** `numericHeaders` in the form the `Select` component takes: each numeric
      header `h` becomes `{ id: h, name: h }`, in header order. */
  function HeaderOptions(experiment: Option<ExperimentData>): (r: seq<SelectOption>)
    ensures |r| == |NumericHeaders(experiment)|
    ensures forall i :: 0 <= i < |r| ==> r[i].id == r[i].name == NumericHeaders(experiment)[i]
  {
    var hs := NumericHeaders(experiment);
    seq(|hs|, i requires 0 <= i < |hs| => SelectOption(hs[i], hs[i]))
  }

  /** The wizard's state. */
  class Wizard {
    var step: int
    var selectedExperiment: Option<ExperimentData>
    var selectedModel: Option<Model>
    var x: string
    var y: string
    var z: string

    /** `numericHeaders` of the selected experiment. */
    function Options(): seq<SelectOption>
      reads this
    {
      HeaderOptions(selectedExperiment)
    }

    /** The Y list: the numeric headers other than X. */
    function YOptions(): (r: seq<SelectOption>)
      reads this
      ensures forall o :: o in r <==> o in Options() && o.name != x
    {
      var xName := x;
      Filter(Options(), (o: SelectOption) => o.name != xName)
    }

    /** The Z list: the numeric headers other than X and Y. */
    function ZOptions(): (r: seq<SelectOption>)
      reads this
      ensures forall o :: o in r <==> o in Options() && o.name != x && o.name != y
    {
      var xName, yName := x, y;
      Filter(Options(), (o: SelectOption) => o.name != xName && o.name != yName)
    }

    /** The `disabled` state of the current step's proceed button. */
    predicate NextDisabled()
      reads this
    {
      if step == 0 then selectedExperiment.None?
      else if step == 1 then selectedModel.None?
      else if step == 2 then x == "" || y == "" || z == ""
      else false
    }

    /** Every step passed had its input: past step 0 an experiment is
        selected, past step 1 a model, past step 2 all three variables. */
    predicate Reached()
      reads this
    {
      && step >= 0
      && (step >= 1 ==> selectedExperiment.Some?)
      && (step >= 2 ==> selectedModel.Some?)
      && (step >= 3 ==> x != "" && y != "" && z != "")
    }

    constructor ()
      ensures step == 0 && selectedExperiment == None && selectedModel == None
      ensures x == "" && y == "" && z == ""
      ensures Reached()
    {
      step := 0;
      selectedExperiment, selectedModel := None, None;
      x, y, z := "", "", "";
    }

    /** `handleProceed`: one step forward. Pressed while enabled, it keeps
        `Reached`. */
    method Proceed()
      modifies this
      ensures step == old(step) + 1
      ensures selectedExperiment == old(selectedExperiment) && selectedModel == old(selectedModel)
      ensures x == old(x) && y == old(y) && z == old(z)
      ensures old(Reached()) && !old(NextDisabled()) ==> Reached()
    {
      step := step + 1;
    }

    /** `resetFlow`: back to step 0 with nothing selected. */
    method ResetFlow()
      modifies this
      ensures step == 0 && selectedExperiment == None && selectedModel == None
      ensures x == "" && y == "" && z == ""
      ensures Reached()
    {
      step := 0;
      selectedExperiment := None;
      selectedModel := None;
      x, y, z := "", "", "";
    }

    /** Step 0's `Select`. */
    method SelectExperiment(e: ExperimentData)
      modifies this
      ensures selectedExperiment == Some(e)
      ensures step == old(step) && selectedModel == old(selectedModel)
      ensures x == old(x) && y == old(y) && z == old(z)
      ensures old(Reached()) ==> Reached()
    {
      selectedExperiment := Some(e);
    }

    /** Step 1's radio group; a disabled model cannot be chosen. */
    method SelectModel(m: Model)
      requires m in AnalysisModels && !m.disabled
      modifies this
      ensures selectedModel == Some(m)
      ensures step == old(step) && selectedExperiment == old(selectedExperiment)
      ensures x == old(x) && y == old(y) && z == old(z)
      ensures old(Reached()) ==> Reached()
    {
      selectedModel := Some(m);
    }

    /** The X `Select`: takes the chosen option's name. */
    method ChooseX(v: SelectOption)
      modifies this
      ensures x == v.name && y == old(y) && z == old(z)
      ensures step == old(step) && selectedExperiment == old(selectedExperiment) && selectedModel == old(selectedModel)
    {
      x := v.name;
    }

    /** The Y `Select`; an option it offers differs from X. */
    method ChooseY(v: SelectOption)
      modifies this
      ensures y == v.name && x == old(x) && z == old(z)
      ensures step == old(step) && selectedExperiment == old(selectedExperiment) && selectedModel == old(selectedModel)
      ensures v in old(YOptions()) ==> y != x
    {
      y := v.name;
    }

    /** The Z `Select`; an option it offers differs from X and Y. */
    method ChooseZ(v: SelectOption)
      modifies this
      ensures z == v.name && x == old(x) && y == old(y)
      ensures step == old(step) && selectedExperiment == old(selectedExperiment) && selectedModel == old(selectedModel)
      ensures v in old(ZOptions()) ==> z != x && z != y
    {
      z := v.name;
    }
  }

  /** Only the heat-map model can be chosen. */
  lemma OnlyHeatmapSelectable(m: Model)
    requires m in AnalysisModels && !m.disabled
    ensures m.id == "heatmap"
  {
  }
}
