/** List operations the app writes with `Array.prototype` methods: `filter`,
    de-duplication through `[...new Set(xs)]`, and the add-or-remove toggle
    used by its checkbox lists. */
module Seqs {

  predicate NoDup<T(==)>(s: seq<T>)
  {
    forall i, j :: 0 <= i < j < |s| ==> s[i] != s[j]
  }

  /** `xs.filter(p)`. */
  function Filter<T(!new)>(s: seq<T>, p: T -> bool): (r: seq<T>)
    ensures |r| <= |s|
    ensures forall x :: x in r <==> x in s && p(x)
  {
    if s == [] then []
    else if p(s[0]) then [s[0]] + Filter(s[1..], p)
    else Filter(s[1..], p)
  }

  /** Filtering by a predicate that holds nowhere on `s` gives nothing. */
  lemma {:induction false} FilterNone<T(!new)>(s: seq<T>, p: T -> bool)
    requires forall x :: x in s ==> !p(x)
    ensures Filter(s, p) == []
  {
    if s != [] { FilterNone(s[1..], p); }
  }

  /** Filtering distributes over concatenation. */
  lemma {:induction false} FilterAppend<T(!new)>(s: seq<T>, t: seq<T>, p: T -> bool)
    ensures Filter(s + t, p) == Filter(s, p) + Filter(t, p)
  {
    if s != [] {
      assert (s + t)[1..] == s[1..] + t;
      FilterAppend(s[1..], t, p);
    } else {
      assert s + t == t;
    }
  }

  /** Filtering by a predicate that holds everywhere on `s` gives `s` back. */
  lemma {:induction false} FilterAll<T(!new)>(s: seq<T>, p: T -> bool)
    requires forall x :: x in s ==> p(x)
    ensures Filter(s, p) == s
  {
    if s != [] { FilterAll(s[1..], p); }
  }

  /** `[...new Set(xs)]`: the distinct elements of `s`, each at its first occurrence. */
  function Distinct<T(==,!new)>(s: seq<T>): (r: seq<T>)
    ensures NoDup(r)
    ensures forall x :: x in r <==> x in s
  {
    if s == [] then []
    else
      var d := Distinct(s[..|s| - 1]);
      assert s == s[..|s| - 1] + [s[|s| - 1]];
      if s[|s| - 1] in d then d else d + [s[|s| - 1]]
  }

  /** Appends each element of `xs` to `acc` unless `acc` already holds it. */
  function AppendNew<T(==)>(acc: seq<T>, xs: seq<T>): seq<T>
  {
    if xs == [] then acc
    else
      var r := AppendNew(acc, xs[..|xs| - 1]);
      if xs[|xs| - 1] in r then r else r + [xs[|xs| - 1]]
  }

  /** One more element is appended exactly when it is new. */
  lemma AppendNewSnoc<T>(acc: seq<T>, xs: seq<T>, x: T)
    ensures AppendNew(acc, xs + [x])
            == (var r := AppendNew(acc, xs); if x in r then r else r + [x])
  {
    assert (xs + [x])[..|xs|] == xs;
  }

  /** Adding the new elements of `xs` to the de-duplication of `s` de-duplicates `s + xs`. */
  lemma {:induction false} AppendNewDistinct<T(!new)>(s: seq<T>, xs: seq<T>)
    ensures AppendNew(Distinct(s), xs) == Distinct(s + xs)
  {
    if xs == [] {
      assert s + xs == s;
    } else {
      var n := |xs| - 1;
      AppendNewDistinct(s, xs[..n]);
      assert (s + xs)[..|s + xs| - 1] == s + xs[..n];
    }
  }

  /** The position of the first occurrence of `x` in `s`. */
  function FirstIndex<T(==)>(s: seq<T>, x: T): (k: nat)
    requires x in s
    ensures k < |s| && s[k] == x
    ensures forall j :: 0 <= j < k ==> s[j] != x
  {
    if s[0] == x then 0 else 1 + FirstIndex(s[1..], x)
  }

  lemma {:induction false} FirstIndexPrefix<T>(s: seq<T>, n: nat, x: T)
    requires n <= |s| && x in s[..n]
    ensures FirstIndex(s, x) == FirstIndex(s[..n], x)
  {
    if s[0] != x {
      assert s[..n][1..] == s[1..][..n - 1];
      FirstIndexPrefix(s[1..], n - 1, x);
    }
  }

  /** `Distinct` lists the elements of `s` in the order in which they first occur. */
  lemma {:induction false} DistinctFirstSeen<T(!new)>(s: seq<T>)
    ensures forall i, j :: 0 <= i < j < |Distinct(s)| ==>
              FirstIndex(s, Distinct(s)[i]) < FirstIndex(s, Distinct(s)[j])
  {
    if s != [] {
      var n := |s| - 1;
      var p := s[..n];
      DistinctFirstSeen(p);
      var d, r := Distinct(p), Distinct(s);
      forall k | 0 <= k < |d| ensures FirstIndex(s, d[k]) == FirstIndex(p, d[k]) < n {
        FirstIndexPrefix(s, n, d[k]);
      }
      if s[n] !in d {
        assert r == d + [s[n]];
        assert s[n] !in p;
        assert FirstIndex(s, s[n]) == n by {
          forall j | 0 <= j < n ensures s[j] != s[n] { assert s[j] == p[j]; }
        }
      } else {
        assert r == d;
      }
    }
  }

  /** A list without duplicates is its own de-duplication. */
  lemma {:induction false} DistinctNoDup<T(!new)>(s: seq<T>)
    requires NoDup(s)
    ensures Distinct(s) == s
  {
    if s != [] {
      var n := |s| - 1;
      assert NoDup(s[..n]);
      DistinctNoDup(s[..n]);
      assert s[n] !in s[..n];
      assert s == s[..n] + [s[n]];
    }
  }

  /** `xs.filter(y => y !== x)`. */
  function RemoveAll<T(==,!new)>(s: seq<T>, x: T): (r: seq<T>)
    ensures forall y :: y in r <==> y in s && y != x
    ensures |r| <= |s| && (x in s ==> |r| < |s|)
  {
    if s == [] then []
    else if s[0] == x then RemoveAll(s[1..], x)
    else [s[0]] + RemoveAll(s[1..], x)
  }

  lemma {:induction false} RemoveAllAbsent<T(!new)>(s: seq<T>, x: T)
    requires x !in s
    ensures RemoveAll(s, x) == s
  {
    if s != [] { RemoveAllAbsent(s[1..], x); }
  }

  lemma {:induction false} RemoveAllNoDup<T(!new)>(s: seq<T>, x: T)
    requires NoDup(s)
    ensures NoDup(RemoveAll(s, x))
  {
    if s != [] {
      assert NoDup(s[1..]);
      RemoveAllNoDup(s[1..], x);
      assert s[0] !in s[1..];
    }
  }

  /** The checkbox toggle: remove `x` when present, else append it. */
  function Toggle<T(==,!new)>(s: seq<T>, x: T): (r: seq<T>)
    ensures x in r <==> x !in s
    ensures forall y :: y != x ==> (y in r <==> y in s)
    ensures x !in s ==> r == s + [x]
    ensures x in s ==> r == Filter(s, y => y != x)
  {
    if x in s then
      RemoveAllIsFilter(s, x);
      RemoveAll(s, x)
    else s + [x]
  }

  /** Removing every `x` is filtering with `!== x`: the rest keep their order. */
  lemma {:induction false} RemoveAllIsFilter<T(!new)>(s: seq<T>, x: T)
    ensures RemoveAll(s, x) == Filter(s, y => y != x)
  {
    if s != [] {
      RemoveAllIsFilter(s[1..], x);
    }
  }

  /** Filtering depends only on what the predicate says about the elements present. */
  lemma {:induction false} FilterAgree<T(!new)>(s: seq<T>, p: T -> bool, q: T -> bool)
    requires forall x :: x in s ==> p(x) == q(x)
    ensures Filter(s, p) == Filter(s, q)
  {
    if s != [] {
      FilterAgree(s[1..], p, q);
    }
  }

  /** Toggling keeps a list free of duplicates. */
  lemma ToggleNoDup<T(!new)>(s: seq<T>, x: T)
    requires NoDup(s)
    ensures NoDup(Toggle(s, x))
  {
    if x in s { RemoveAllNoDup(s, x); }
  }

  /** Toggling an absent element on and off again restores the list. */
  lemma ToggleTwice<T(!new)>(s: seq<T>, x: T)
    requires x !in s
    ensures Toggle(Toggle(s, x), x) == s
  {
    RemoveAllAbsent(s, x);
    assert RemoveAll(s + [x], x) == s by { RemoveAllAppend(s, x); }
  }

  lemma {:induction false} RemoveAllAppend<T(!new)>(s: seq<T>, x: T)
    requires x !in s
    ensures RemoveAll(s + [x], x) == s
  {
    if s == [] {
      assert RemoveAll([x][1..], x) == [];
    } else {
      assert (s + [x])[1..] == s[1..] + [x];
      RemoveAllAppend(s[1..], x);
    }
  }

  /** `xs.filter((_, j) => j !== i)`: drops position `i`; any other `i` changes nothing. */
  function RemoveAt<T>(s: seq<T>, i: int): (r: seq<T>)
    ensures 0 <= i < |s| ==>
      && |r| == |s| - 1
      && (forall k :: 0 <= k < i ==> r[k] == s[k])
      && (forall k :: i <= k < |r| ==> r[k] == s[k + 1])
    ensures !(0 <= i < |s|) ==> r == s
  {
    if 0 <= i < |s| then s[..i] + s[i + 1..] else s
  }

  /** The concatenation of a list of lists. */
  function Flatten<T>(ss: seq<seq<T>>): seq<T>
  {
    if ss == [] then [] else Flatten(ss[..|ss| - 1]) + ss[|ss| - 1]
  }

  /** An element of the concatenation comes from one of the lists, and back. */
  lemma {:induction false} FlattenMembership<T(!new)>(ss: seq<seq<T>>)
    ensures forall x :: x in Flatten(ss) <==> exists i :: 0 <= i < |ss| && x in ss[i]
  {
    if ss != [] {
      var n := |ss| - 1;
      FlattenMembership(ss[..n]);
      assert forall i :: 0 <= i < n ==> ss[..n][i] == ss[i];
    }
  }
}
