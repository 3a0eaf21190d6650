/** The column map handed from the mapping step to the analysis: a JavaScript
    object from semantic key (`pressure`, `volume`, a formula variable) to the
    label of a data column, `''` while unmapped. An object keeps its keys in
    insertion order, which shows in the list of mapped keys, so the map is an
    association list. */
module ColumnMaps {
  import opened Values
  import opened Seqs

  type ColumnMap = seq<(string, string)>

  /** `Object.keys(m)`. */
  function Keys(m: ColumnMap): seq<string>
  {
    seq(|m|, i requires 0 <= i < |m| => m[i].0)
  }

  lemma KeysCons(e: (string, string), m: ColumnMap)
    ensures Keys([e] + m) == [e.0] + Keys(m)
  {
  }

  /** An object never holds a key twice. */
  predicate WellFormed(m: ColumnMap)
  {
    NoDup(Keys(m))
  }

  /** `m[key]`, `None` when the key is absent (`undefined`). */
  function Get(m: ColumnMap, key: string): (r: Option<string>)
    ensures r.Some? <==> key in Keys(m)
    ensures r.Some? ==> (key, r.value) in m
  {
    if m == [] then None
    else
      assert Keys(m) == [m[0].0] + Keys(m[1..]);
      if m[0].0 == key then Some(m[0].1) else Get(m[1..], key)
  }

  /** `{ ...m, [key]: value }`: the key now holds the value, and every other key
      what it held before. */
  function Assign(m: ColumnMap, key: string, value: string): (r: ColumnMap)
    ensures Get(r, key) == Some(value)
    ensures forall k :: k != key ==> Get(r, k) == Get(m, k)
    ensures forall e :: e in r ==> e in m || e == (key, value)
  {
    if m == [] then [(key, value)]
    else if m[0].0 == key then
      var r := [(key, value)] + m[1..];
      assert r[1..] == m[1..];
      r
    else
      var t := Assign(m[1..], key, value);
      var r := [m[0]] + t;
      assert r[1..] == t;
      r
  }

  /** An existing key keeps its position; a new one goes last. */
  lemma {:induction false} AssignKeys(m: ColumnMap, key: string, value: string)
    ensures Keys(Assign(m, key, value)) == if key in Keys(m) then Keys(m) else Keys(m) + [key]
  {
    if m != [] {
      KeysCons(m[0], m[1..]);
      assert m == [m[0]] + m[1..];
      if m[0].0 == key {
        KeysCons((key, value), m[1..]);
      } else {
        AssignKeys(m[1..], key, value);
        KeysCons(m[0], Assign(m[1..], key, value));
      }
    }
  }

  /** Looking a key up in a map with one more entry at the end. */
  lemma {:induction false} GetAppend(m: ColumnMap, e: (string, string), key: string)
    ensures Get(m + [e], key) == if key in Keys(m) then Get(m, key) else if key == e.0 then Some(e.1) else None
  {
    if m != [] {
      assert (m + [e])[1..] == m[1..] + [e];
      GetAppend(m[1..], e, key);
      assert Keys(m) == [m[0].0] + Keys(m[1..]);
    }
  }

  /** Assigning keeps the keys of a well-formed map distinct. */
  lemma AssignWellFormed(m: ColumnMap, key: string, value: string)
    requires WellFormed(m)
    ensures WellFormed(Assign(m, key, value))
  {
    AssignKeys(m, key, value);
  }
}
