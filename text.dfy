/** String helpers with the semantics of the JavaScript built-ins the app uses:
    the whitespace class of `\s` and `String.prototype.trim`, `toLowerCase`
    (on ASCII letters), `includes`, `Array.prototype.join` and the decimal
    rendering of a non-negative integer in template strings. */
module Text {

  /** The characters matched by `\s` and removed by `trim()`. */
  const Whitespace: set<char> := {
    ' ', '\t', '\n', '\r', '\U{B}', '\U{C}', '\U{A0}', '\U{1680}',
    '\U{2000}', '\U{2001}', '\U{2002}', '\U{2003}', '\U{2004}', '\U{2005}',
    '\U{2006}', '\U{2007}', '\U{2008}', '\U{2009}', '\U{200A}',
    '\U{2028}', '\U{2029}', '\U{202F}', '\U{205F}', '\U{3000}', '\U{FEFF}'
  }

  predicate IsWhitespace(c: char)
  {
    c in Whitespace
  }

  predicate AllWhitespace(s: string)
  {
    forall i :: 0 <= i < |s| ==> IsWhitespace(s[i])
  }

  predicate NoWhitespace(s: string)
  {
    forall i :: 0 <= i < |s| ==> !IsWhitespace(s[i])
  }

  /** The index of the first character at or after `i` that is not
      whitespace, or `|s|` when there is none. */
  function LeadFrom(s: string, i: nat): (k: nat)
    requires i <= |s|
    ensures i <= k <= |s|
    ensures forall j :: i <= j < k ==> IsWhitespace(s[j])
    ensures k == |s| || !IsWhitespace(s[k])
    decreases |s| - i
  {
    if i < |s| && IsWhitespace(s[i]) then LeadFrom(s, i + 1) else i
  }

  /** The index just past the last character before `j` (and not before
      `lo`) that is not whitespace, or `lo` when there is none. */
  function TrailTo(s: string, lo: nat, j: nat): (k: nat)
    requires lo <= j <= |s|
    ensures lo <= k <= j
    ensures forall m :: k <= m < j ==> IsWhitespace(s[m])
    ensures k == lo || !IsWhitespace(s[k - 1])
  {
    if lo < j && IsWhitespace(s[j - 1]) then TrailTo(s, lo, j - 1) else j
  }

  /** Where `trim()` starts its result. */
  function TrimFirst(s: string): nat
  {
    LeadFrom(s, 0)
  }

  /** Where `trim()` ends its result. */
  function TrimLast(s: string): nat
  {
    TrailTo(s, TrimFirst(s), |s|)
  }

  /** `s.trim()`. */
  function Trim(s: string): (r: string)
    ensures |r| <= |s|
  {
    s[TrimFirst(s)..TrimLast(s)]
  }

  /** `trim()` keeps one contiguous slice of its input and drops only
      whitespace on either side of it. */
  lemma TrimSlice(s: string)
    ensures var a, b := TrimFirst(s), TrimLast(s);
      && a <= b <= |s| && Trim(s) == s[a..b]
      && (forall j :: 0 <= j < a ==> IsWhitespace(s[j]))
      && (forall j :: b <= j < |s| ==> IsWhitespace(s[j]))
  {
    var a, b := TrimFirst(s), TrimLast(s);
    assert forall j :: b <= j < |s| ==> IsWhitespace(s[j]);
  }

  /** Trimmed text has no whitespace at either end. */
  lemma TrimEnds(s: string)
    ensures var r := Trim(s);
      r == [] || (!IsWhitespace(r[0]) && !IsWhitespace(r[|r| - 1]))
  {
    var a, b := TrimFirst(s), TrimLast(s);
    var r := Trim(s);
    if r != [] {
      assert r[0] == s[a] && r[|r| - 1] == s[b - 1];
    }
  }

  /** Trimming leaves nothing exactly when the string is blank. */
  lemma TrimEmptyIffBlank(s: string)
    ensures Trim(s) == [] <==> AllWhitespace(s)
  {
    var a, b := TrimFirst(s), TrimLast(s);
    if a < |s| {
      assert !IsWhitespace(s[a]);
      assert b > a;
    }
  }

  /** A string with no whitespace is its own trim. */
  lemma TrimNoWhitespace(s: string)
    requires NoWhitespace(s)
    ensures Trim(s) == s
  {
    if s != [] {
      assert TrimFirst(s) == 0;
      assert !IsWhitespace(s[|s| - 1]);
      assert TrimLast(s) == |s|;
    }
    assert s[0..|s|] == s;
  }

  /** `toLowerCase()` on one character (ASCII letters only). */
  function LowerChar(c: char): char
  {
    if 'A' <= c <= 'Z' then (c as int - 'A' as int + 'a' as int) as char else c
  }

  function Lower(s: string): (r: string)
  {
    seq(|s|, i requires 0 <= i < |s| => LowerChar(s[i]))
  }

  predicate StartsWith(s: string, prefix: string)
  {
    |prefix| <= |s| && s[..|prefix|] == prefix
  }

  /** `s.includes(t)`. */
  predicate Contains(s: string, t: string)
    decreases |s|
  {
    StartsWith(s, t) || (s != [] && Contains(s[1..], t))
  }

  /** `t` occurs in `s` at position `i`. */
  predicate OccursAt(s: string, t: string, i: int)
  {
    0 <= i && i + |t| <= |s| && s[i..i + |t|] == t
  }

  /** `s.includes(t)` holds exactly when `t` occurs at some position of `s`. */
  lemma {:induction false} ContainsAt(s: string, t: string)
    ensures Contains(s, t) <==> exists i :: OccursAt(s, t, i)
    decreases |s|
  {
    if s != [] {
      ContainsAt(s[1..], t);
      if Contains(s[1..], t) {
        var i :| OccursAt(s[1..], t, i);
        assert OccursAt(s, t, i + 1);
      }
      if exists i :: OccursAt(s, t, i) {
        var i :| OccursAt(s, t, i);
        if i > 0 { assert OccursAt(s[1..], t, i - 1); } else { assert s[..|t|] == s[0..|t|]; }
      }
      if StartsWith(s, t) {
        assert OccursAt(s, t, 0);
      }
    } else {
      if exists i :: OccursAt(s, t, i) {
        var i :| OccursAt(s, t, i);
        assert StartsWith(s, t);
      }
      if Contains(s, t) {
        assert OccursAt(s, t, 0);
      }
    }
  }

  /** `parts.join(sep)`. */
  function Join(parts: seq<string>, sep: string): string
  {
    if |parts| == 0 then ""
    else if |parts| == 1 then parts[0]
    else parts[0] + sep + Join(parts[1..], sep)
  }

  function DigitChar(d: nat): char
    requires d < 10
  {
    ('0' as int + d) as char
  }

  /** The decimal text of a natural number, as `${n}` renders it. */
  function NatToString(n: nat): (r: string)
    ensures |r| > 0
    ensures forall i :: 0 <= i < |r| ==> '0' <= r[i] <= '9'
  {
    if n < 10 then [DigitChar(n)] else NatToString(n / 10) + [DigitChar(n % 10)]
  }
}
