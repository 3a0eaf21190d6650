/** The custom-formula dialog of `src/components/upload/CustomFormulaModal.jsx`:
    the identifiers a formula uses, the check that each is a mapped key, the
    smoke test of the compiled formula, the derived `outputKey`, and the form
    state that `handleSave` updates. */
module CustomFormula {
  import opened Values
  import opened Text
  import opened Seqs
  import opened Analysis

  const FillMessage := "Please fill out all fields."
  const SmokeTestMessage := "Formula validation failed. Check syntax."

  // ---------------------------------------------------------------------------
  // Identifiers: the global regular expression `[a-zA-Z_][a-zA-Z0-9_]*`.

  predicate IsIdentStart(c: char)
  {
    'a' <= c <= 'z' || 'A' <= c <= 'Z' || c == '_'
  }

  predicate IsIdentChar(c: char)
  {
    IsIdentStart(c) || '0' <= c <= '9'
  }

  /** A string the regular expression matches in full. */
  predicate IsIdentifier(s: string)
  {
    |s| > 0 && IsIdentStart(s[0]) && forall i :: 0 <= i < |s| ==> IsIdentChar(s[i])
  }

  /** The length of the longest prefix of `s` made of identifier characters. */
  function IdentRun(s: string): (k: nat)
    ensures k <= |s|
    ensures forall i :: 0 <= i < k ==> IsIdentChar(s[i])
    ensures k == |s| || !IsIdentChar(s[k])
  {
    if s != [] && IsIdentChar(s[0]) then 1 + IdentRun(s[1..]) else 0
  }

  /** `formula.match(variableRegex) || []`: the maximal matches, scanning left
      to right; a character that cannot start a match is skipped. */
  function Matches(s: string): (r: seq<string>)
    ensures forall m :: m in r ==> IsIdentifier(m)
    decreases |s|
  {
    if s == [] then []
    else if IsIdentStart(s[0]) then
      var k := 1 + IdentRun(s[1..]);
      assert forall i :: 1 <= i < k ==> s[i] == s[1..][i - 1];
      [s[..k]] + Matches(s[k..])
    else Matches(s[1..])
  }

  /** A run of identifier characters ends at the first character that is not one. */
  lemma {:induction false} IdentRunStops(x: string, c: char, y: string)
    requires !IsIdentChar(c)
    ensures IdentRun(x + [c] + y) == IdentRun(x) || (IdentRun(x) == |x| && IdentRun(x + [c] + y) == |x|)
    ensures IdentRun(x + [c] + y) <= |x|
  {
    if x != [] && IsIdentChar(x[0]) {
      assert (x + [c] + y)[1..] == x[1..] + [c] + y;
      IdentRunStops(x[1..], c, y);
    } else if x == [] {
      assert (x + [c] + y)[0] == c;
    }
  }

  /** A string that is all identifier characters is one run. */
  lemma {:induction false} IdentRunAll(s: string)
    requires forall i :: 0 <= i < |s| ==> IsIdentChar(s[i])
    ensures IdentRun(s) == |s|
  {
    if s != [] {
      IdentRunAll(s[1..]);
    }
  }

  /** An identifier on its own is its only match. */
  lemma MatchesIdentifier(id: string)
    requires IsIdentifier(id)
    ensures Matches(id) == [id]
  {
    IdentRunAll(id[1..]);
    assert id[..|id|] == id;
    assert id[|id|..] == [];
  }

  /** The first match of `a + [c] + b`, when `a` starts one, lies inside `a`. */
  lemma FirstMatchInside(a: string, c: char, b: string)
    requires a != [] && IsIdentStart(a[0]) && !IsIdentChar(c)
    ensures var k := 1 + IdentRun(a[1..]);
      && k <= |a|
      && Matches(a + [c] + b) == [a[..k]] + Matches(a[k..] + [c] + b)
      && Matches(a) == [a[..k]] + Matches(a[k..])
  {
    var s := a + [c] + b;
    assert s[1..] == a[1..] + [c] + b;
    IdentRunStops(a[1..], c, b);
    var k := 1 + IdentRun(a[1..]);
    assert IdentRun(s[1..]) == IdentRun(a[1..]);
    assert Matches(s) == [s[..k]] + Matches(s[k..]);
    assert s[..k] == a[..k];
    assert s[k..] == a[k..] + [c] + b;
  }

  /** Matching distributes over a character that cannot occur in an identifier. */
  lemma {:induction false} MatchesSeparated(a: string, c: char, b: string)
    requires !IsIdentChar(c)
    ensures Matches(a + [c] + b) == Matches(a) + Matches(b)
    decreases |a|
  {
    var s := a + [c] + b;
    if a == [] {
      assert s == [c] + b && s[1..] == b;
    } else if IsIdentStart(a[0]) {
      FirstMatchInside(a, c, b);
      var k := 1 + IdentRun(a[1..]);
      MatchesSeparated(a[k..], c, b);
    } else {
      assert s[1..] == a[1..] + [c] + b;
      MatchesSeparated(a[1..], c, b);
    }
  }

  /** A digit cannot start a match, so the exponent of a number written as
      `2e3` is read as the identifier `e3`. */
  lemma ExponentIsAnIdentifier()
    ensures Matches("2e3") == ["e3"]
  {
    var s := "2e3";
    assert s[1..] == "e3";
    MatchesIdentifier("e3");
  }

  /** `[...new Set(matches)]`: the formula's variables, each once, in the order
      of their first occurrence. */
  function ExtractVariables(formula: string): (vs: seq<string>)
    ensures NoDup(vs)
    ensures forall v :: v in vs <==> v in Matches(formula)
    ensures forall v :: v in vs ==> IsIdentifier(v)
  {
    Distinct(Matches(formula))
  }

  /** `variables.filter(v => !mappedKeys.includes(v))`. */
  function Unmapped(variables: seq<string>, mappedKeys: seq<string>): (r: seq<string>)
    ensures forall v :: v in r <==> v in variables && v !in mappedKeys
  {
    Filter(variables, v => v !in mappedKeys)
  }

  // ---------------------------------------------------------------------------
  // The output key.

  /** `name.toLowerCase().replace(/\s/g, '_')`. */
  function OutputKey(name: string): (r: string)
    ensures |r| == |name|
    ensures NoWhitespace(r)
    ensures forall i :: 0 <= i < |name| ==> r[i] == (if IsWhitespace(name[i]) then '_' else LowerChar(name[i]))
  {
    seq(|name|, i requires 0 <= i < |name| => if IsWhitespace(name[i]) then '_' else LowerChar(name[i]))
  }

  /** Deriving the key of a key changes nothing. */
  lemma OutputKeyIdempotent(name: string)
    ensures OutputKey(OutputKey(name)) == OutputKey(name)
  {
  }

  // ---------------------------------------------------------------------------
  // Saving.

  /** The object handed to `onSave` (the selector adds the `id`). */
  datatype FormulaData = FormulaData(
    name: string, formula: string, outputKey: string, outputUnit: string, requiredInputs: seq<string>)

  /** The error for a formula that uses keys outside `mappedKeys`. */
  function UnmappedMessage(unmapped: seq<string>, mappedKeys: seq<string>): string
  {
    "Formula uses unmapped keys: " + Join(unmapped, ", ") + ". Only mapped keys ("
      + Join(mappedKeys, ", ") + ") are allowed."
  }

  /** `testRow`: every mapped key bound to 1. */
  function TestRow(mappedKeys: seq<string>): Row
  {
    map k | k in mappedKeys :: Num(1.0)
  }

  /** The outcome of `handleSave`. `evaluate` runs the compiled formula on its
      bindings (`null` for a non-finite result or a thrown error), and
      `syntaxError` is the message `new Function` throws, if any. */
  function Validate(name: string, formula: string, unit: string, mappedKeys: seq<string>,
                    evaluate: (string, Row) -> Option<real>, syntaxError: Option<string>): (r: Result<FormulaData, string>)
    ensures (name == "" || formula == "" || unit == "") ==> r == Err(FillMessage)
    ensures name != "" && formula != "" && unit != "" && Unmapped(ExtractVariables(formula), mappedKeys) != [] ==>
              r == Err(UnmappedMessage(Unmapped(ExtractVariables(formula), mappedKeys), mappedKeys))
    ensures r.Ok? <==>
              && name != "" && formula != "" && unit != ""
              && (forall v :: v in Matches(formula) ==> v in mappedKeys)
              && syntaxError.None?
              && (mappedKeys == [] || evaluate(formula, FormulaBindings(ExtractVariables(formula), TestRow(mappedKeys))).Some?)
    ensures r.Ok? ==>
              && r.value.requiredInputs == ExtractVariables(formula)
              && (forall v :: v in r.value.requiredInputs ==> v in mappedKeys)
              && r.value.outputKey == OutputKey(name)
              && r.value == FormulaData(name, formula, OutputKey(name), unit, ExtractVariables(formula))
  {
    if name == "" || formula == "" || unit == "" then Err(FillMessage)
    else
      var variables := ExtractVariables(formula);
      var unmapped := Unmapped(variables, mappedKeys);
      if |unmapped| > 0 then
        assert unmapped[0] in variables;
        Err(UnmappedMessage(unmapped, mappedKeys))
      else
        if syntaxError.Some? then Err("Invalid formula syntax: " + syntaxError.value)
        else if evaluate(formula, FormulaBindings(variables, TestRow(mappedKeys))).None? && |mappedKeys| > 0 then
          Err("Invalid formula syntax: " + SmokeTestMessage)
        else Ok(FormulaData(name, formula, OutputKey(name), unit, variables))
  }

  /** On the smoke-test row every variable of an accepted formula is bound to 1. */
  lemma SmokeTestBindsOne(name: string, formula: string, unit: string, mappedKeys: seq<string>,
                          evaluate: (string, Row) -> Option<real>, syntaxError: Option<string>)
    requires Validate(name, formula, unit, mappedKeys, evaluate, syntaxError).Ok?
    ensures FormulaBindings(ExtractVariables(formula), TestRow(mappedKeys))
            == map v | v in ExtractVariables(formula) :: Num(1.0)
  {
  }

  /** The dialog's state. */
  class FormulaModal {
    var name: string
    var formula: string
    var unit: string
    var error: Option<string>

    constructor ()
      ensures name == "" && formula == "" && unit == "" && error == None
    {
      name, formula, unit, error := "", "", "", None;
    }

    /** `handleSave`: on success the form is cleared and the data returned for
        `onSave`; otherwise the error is shown and the fields are kept. */
    method Save(mappedKeys: seq<string>, evaluate: (string, Row) -> Option<real>, syntaxError: Option<string>)
      returns (saved: Option<FormulaData>)
      modifies this
      ensures var r := Validate(old(name), old(formula), old(unit), mappedKeys, evaluate, syntaxError);
        && (r.Ok? ==> saved == Some(r.value) && name == "" && formula == "" && unit == "" && error == None)
        && (r.Err? ==>
              saved == None && error == Some(r.error)
              && name == old(name) && formula == old(formula) && unit == old(unit))
    {
      error := None;
      saved := None;
      if name == "" || formula == "" || unit == "" {
        error := Some(FillMessage);
        return;
      }
      var variables := ExtractVariables(formula);
      var unmappedKeys := Unmapped(variables, mappedKeys);
      if |unmappedKeys| > 0 {
        error := Some(UnmappedMessage(unmappedKeys, mappedKeys));
        return;
      }
      if syntaxError.Some? {
        error := Some("Invalid formula syntax: " + syntaxError.value);
        return;
      }
      if evaluate(formula, FormulaBindings(variables, TestRow(mappedKeys))).None? && |mappedKeys| > 0 {
        error := Some("Invalid formula syntax: " + SmokeTestMessage);
        return;
      }
      saved := Some(FormulaData(name, formula, OutputKey(name), unit, variables));
      name, formula, unit := "", "", "";
    }
  }
}
