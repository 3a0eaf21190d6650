/** The column-mapping step of `src/components/upload/ColumnMapper.jsx`: one
    drop-down per semantic input that some calculation requires, each set to
    `''` or to one of the headers found in the data. */
module ColumnMapper {
  import opened Values
  import opened Seqs
  import opened ColumnMaps
  import opened Analysis

  /** `availableCalculations.flatMap(calc => calc.requiredInputs)`. */
  function ConcatInputs(calcs: seq<Calculation>): (r: seq<string>)
    ensures forall k :: k in r <==> exists c :: c in calcs && k in c.requiredInputs
  {
    if calcs == [] then []
    else
      var n := |calcs| - 1;
      var p := ConcatInputs(calcs[..n]);
      assert calcs == calcs[..n] + [calcs[n]];
      p + calcs[n].requiredInputs
  }

  /** `allRequiredInputs`: every calculation's inputs, each once, in first-seen order. */
  function AllRequiredInputs(calcs: seq<Calculation>): (r: seq<string>)
    ensures NoDup(r)
    ensures forall k :: k in r <==> exists c :: c in calcs && k in c.requiredInputs
  {
    Distinct(ConcatInputs(calcs))
  }

  /** The initial `mapping`: `keys.reduce((acc, key) => ({ ...acc, [key]: '' }), {})`. */
  function InitialMapping(keys: seq<string>): (m: ColumnMap)
    ensures Keys(m) == Distinct(keys)
    ensures forall k :: k in keys ==> Get(m, k) == Some("")
    ensures forall e :: e in m ==> e.1 == ""
  {
    if keys == [] then []
    else
      var n := |keys| - 1;
      var p := InitialMapping(keys[..n]);
      assert keys == keys[..n] + [keys[n]];
      AssignKeys(p, keys[n], "");
      Assign(p, keys[n], "")
  }

  /** Every mapped value is `''` or a detected header. */
  predicate ValuesOffered(m: ColumnMap, detectedHeaders: seq<string>)
  {
    forall e :: e in m ==> e.1 == "" || e.1 in detectedHeaders
  }

  /** `LABEL_MAPPING[stdKey] || \`Select ${stdKey} column\``. */
  function LabelFor(key: string): (r: string)
    ensures key == "pressure" ==> r == "Select variable on X axis"
    ensures key == "volume" ==> r == "Select variable on Y axis"
    ensures key != "pressure" && key != "volume" ==> r == "Select " + key + " column"
  {
    if key == "pressure" then "Select variable on X axis"
    else if key == "volume" then "Select variable on Y axis"
    else "Select " + key + " column"
  }

  /** The component's state. */
  class ColumnMapperState {
    const detectedHeaders: seq<string>
    const requiredInputs: seq<string>
    var mapping: ColumnMap

    /** One drop-down per required input, every value offered by a drop-down. */
    predicate Valid()
      reads this
    {
      && WellFormed(mapping)
      && Keys(mapping) == requiredInputs
      && ValuesOffered(mapping, detectedHeaders)
    }

    constructor (headers: seq<string>, calcs: seq<Calculation>)
      ensures detectedHeaders == headers
      ensures requiredInputs == AllRequiredInputs(calcs)
      ensures mapping == InitialMapping(AllRequiredInputs(calcs))
      ensures Valid()
    {
      detectedHeaders := headers;
      requiredInputs := AllRequiredInputs(calcs);
      mapping := InitialMapping(AllRequiredInputs(calcs));
      DistinctNoDup(AllRequiredInputs(calcs));
    }

    /** `handleSelectChange`: a drop-down sets its own key to an offered value. */
    method SelectChange(stdKey: string, userKey: string)
      requires Valid()
      requires stdKey in requiredInputs
      requires userKey == "" || userKey in detectedHeaders
      modifies this
      ensures Valid()
      ensures Get(mapping, stdKey) == Some(userKey)
      ensures forall k :: k != stdKey ==> Get(mapping, k) == Get(old(mapping), k)
      ensures Keys(mapping) == Keys(old(mapping))
    {
      AssignWellFormed(mapping, stdKey, userKey);
      AssignKeys(mapping, stdKey, userKey);
      mapping := Assign(mapping, stdKey, userKey);
    }

    /** `handleSubmit` hands the mapping over as it is. */
    method Submit() returns (m: ColumnMap)
      requires Valid()
      ensures m == mapping
      ensures WellFormed(m) && Keys(m) == requiredInputs && ValuesOffered(m, detectedHeaders)
    {
      m := mapping;
    }
  }
}
