/** `parseOcrText` of `src/components/upload/OcrDropzone.jsx`: the text that OCR
    recognised becomes a table whose header is the first non-blank line and
    whose rows are the other non-blank lines, each cut or padded to the header's
    width. */
module OcrText {
  import opened Text
  import opened Seqs
  import opened Grids

  /** `text.split('\n')`: the pieces between newlines, one more than there are newlines. */
  function SplitLines(s: string): (r: seq<string>)
    ensures |r| >= 1
    ensures forall i :: 0 <= i < |r| ==> '\n' !in r[i]
  {
    if s == [] then [""]
    else
      var rest := SplitLines(s[1..]);
      if s[0] == '\n' then [""] + rest
      else [[s[0]] + rest[0]] + rest[1..]
  }

  /** Joining the pieces with newlines gives the text back. */
  lemma {:induction false} SplitLinesJoin(s: string)
    ensures Join(SplitLines(s), "\n") == s
  {
    if s != [] {
      var rest := SplitLines(s[1..]);
      SplitLinesJoin(s[1..]);
      if s[0] == '\n' {
        assert ([""] + rest)[1..] == rest;
      } else {
        var r := [[s[0]] + rest[0]] + rest[1..];
        if |rest| == 1 {
          assert s == [s[0]] + s[1..];
          assert r == [s];
        } else {
          assert r[1..] == rest[1..];
          assert Join(rest, "\n") == rest[0] + "\n" + Join(rest[1..], "\n");
        }
      }
    }
  }

  /** The length of the longest prefix of `s` without whitespace. */
  function WordRun(s: string): (k: nat)
    ensures k <= |s|
    ensures forall i :: 0 <= i < k ==> !IsWhitespace(s[i])
    ensures k == |s| || IsWhitespace(s[k])
  {
    if s != [] && !IsWhitespace(s[0]) then 1 + WordRun(s[1..]) else 0
  }

  /** `row.split(/\s+/).filter(cell => cell.trim() !== '')`: the maximal runs of
      non-whitespace characters, in order. */
  function Tokens(s: string): (r: seq<string>)
    ensures forall i :: 0 <= i < |r| ==> r[i] != "" && NoWhitespace(r[i])
    decreases |s|
  {
    if s == [] then []
    else if IsWhitespace(s[0]) then Tokens(s[1..])
    else
      var k := WordRun(s);
      [s[..k]] + Tokens(s[k..])
  }

  lemma {:induction false} WordRunStops(x: string, c: char, y: string)
    requires IsWhitespace(c)
    ensures WordRun(x + [c] + y) == WordRun(x) <= |x|
  {
    if x != [] && !IsWhitespace(x[0]) {
      assert (x + [c] + y)[1..] == x[1..] + [c] + y;
      WordRunStops(x[1..], c, y);
    } else if x == [] {
      assert (x + [c] + y)[0] == c;
    }
  }

  /** Splitting distributes over a whitespace character. */
  lemma {:induction false} TokensSeparated(a: string, c: char, b: string)
    requires IsWhitespace(c)
    ensures Tokens(a + [c] + b) == Tokens(a) + Tokens(b)
    decreases |a|
  {
    var s := a + [c] + b;
    if a == [] {
      assert s == [c] + b && s[1..] == b;
    } else if IsWhitespace(a[0]) {
      assert s[1..] == a[1..] + [c] + b;
      TokensSeparated(a[1..], c, b);
    } else {
      WordRunStops(a, c, b);
      var k := WordRun(a);
      assert s[..k] == a[..k];
      assert s[k..] == a[k..] + [c] + b;
      TokensSeparated(a[k..], c, b);
    }
  }

  /** A word without whitespace is a single token. */
  lemma TokensWord(w: string)
    requires w != "" && NoWhitespace(w)
    ensures Tokens(w) == [w]
  {
    assert WordRun(w) == |w| by { WordRunAll(w); }
    assert w[..|w|] == w && w[|w|..] == [];
  }

  lemma {:induction false} WordRunAll(w: string)
    requires NoWhitespace(w)
    ensures WordRun(w) == |w|
  {
    if w != [] { WordRunAll(w[1..]); }
  }

  /** Words joined by single spaces are split back into the same words. */
  lemma {:induction false} TokensJoin(words: seq<string>)
    requires forall i :: 0 <= i < |words| ==> words[i] != "" && NoWhitespace(words[i])
    ensures Tokens(Join(words, " ")) == words
  {
    if |words| == 1 {
      TokensWord(words[0]);
    } else if |words| > 1 {
      TokensJoin(words[1..]);
      TokensWord(words[0]);
      assert Join(words, " ") == words[0] + [' '] + Join(words[1..], " ");
      TokensSeparated(words[0], ' ', Join(words[1..], " "));
    }
  }

  /** `row.trim() !== ''`. */
  predicate NotBlank(line: string)
  {
    Trim(line) != ""
  }

  /** The token lists of the non-blank lines. */
  function TokenRows(text: string): (rows: seq<seq<string>>)
  {
    var lines := Filter(SplitLines(text), NotBlank);
    seq(|lines|, i requires 0 <= i < |lines| => Tokens(lines[i]))
  }

  /** `headers.map((name, i) => ({ id: \`col${i+1}\`, name: name || \`Column ${i+1}\` }))`. */
  function HeaderColumns(headers: seq<string>): (cols: seq<Column>)
    ensures |cols| == |headers|
    ensures forall i :: 0 <= i < |headers| ==>
              cols[i].id == ColumnId(i + 1)
              && cols[i].name == (if headers[i] != "" then headers[i] else "Column " + NatToString(i + 1))
  {
    seq(|headers|, i requires 0 <= i < |headers| =>
      Column(ColumnId(i + 1), if headers[i] != "" then headers[i] else "Column " + NatToString(i + 1)))
  }

  /** The reference for one data row: the first `width` tokens, padded with `''`. */
  function Fit(row: seq<string>, width: nat): (r: seq<string>)
    ensures |r| == width
    ensures forall j :: 0 <= j < width ==> r[j] == (if j < |row| then row[j] else "")
  {
    if |row| >= width then row[..width] else row + Blanks(width - |row|)
  }

  /** The padding `while` loop followed by `slice(0, columns.length)`. */
  method PadRow(row: seq<string>, width: nat) returns (r: seq<string>)
    ensures r == Fit(row, width)
    ensures forall i :: 0 <= i < width ==> r[i] == (if i < |row| then row[i] else "")
  {
    var newRow := row;
    while |newRow| < width
      invariant |row| <= |newRow|
      invariant newRow[..|row|] == row
      invariant forall i :: |row| <= i < |newRow| ==> newRow[i] == ""
      invariant |row| < width ==> |newRow| <= width
      invariant |row| >= width ==> newRow == row
      decreases width - |newRow|
    {
      newRow := newRow + [""];
    }
    r := newRow[..width];
    if |row| < width {
      assert newRow == row + Blanks(width - |row|);
    } else {
      assert newRow == row;
    }
  }

  /** `parseOcrText`. */
  method ParseOcrText(text: string) returns (columns: seq<Column>, data: seq<seq<string>>)
    ensures TokenRows(text) == [] ==> columns == [] && data == []
    ensures TokenRows(text) != [] ==>
      && columns == HeaderColumns(TokenRows(text)[0])
      && |data| == |TokenRows(text)| - 1
      && forall i :: 0 <= i < |data| ==> data[i] == Fit(TokenRows(text)[i + 1], |columns|)
  {
    var rows := TokenRows(text);
    if |rows| == 0 {
      return [], [];
    }
    var headers := rows[0];
    var body := rows[1..];
    columns := HeaderColumns(headers);
    data := [];
    for i := 0 to |body|
      invariant |data| == i
      invariant forall k :: 0 <= k < i ==> data[k] == Fit(rows[k + 1], |columns|)
    {
      assert body[i] == rows[i + 1];
      var newRow := PadRow(body[i], |columns|);
      data := data + [newRow];
    }
  }

  /** Every column is named by its header token, which is never empty and holds
      no whitespace; every cell is a token of its line or `''` padding. */
  lemma ParsedTable(text: string)
    ensures var rows := TokenRows(text);
      rows != [] ==>
        var cols := HeaderColumns(rows[0]);
        && (forall i :: 0 <= i < |cols| ==> cols[i].name == rows[0][i] && cols[i].name != "" && NoWhitespace(cols[i].name))
        && (forall i, j :: 1 <= i < |rows| && 0 <= j < |cols| ==>
              Fit(rows[i], |cols|)[j] == "" || NoWhitespace(Fit(rows[i], |cols|)[j]))
  {
  }

  /** Blank text gives an empty table. */
  lemma BlankTextIsEmpty(text: string)
    requires AllWhitespace(text)
    ensures TokenRows(text) == []
  {
    var lines := SplitLines(text);
    forall l | l in lines ensures !NotBlank(l) {
      BlankLines(text, l);
      TrimEmptyIffBlank(l);
    }
    FilterNone(lines, NotBlank);
  }

  /** Every line of a blank text is blank. */
  lemma {:induction false} BlankLines(text: string, l: string)
    requires AllWhitespace(text) && l in SplitLines(text)
    ensures AllWhitespace(l)
  {
    if text != [] {
      var rest := SplitLines(text[1..]);
      if text[0] != '\n' {
        if l == [text[0]] + rest[0] {
          BlankLines(text[1..], rest[0]);
        } else {
          assert l in rest[1..];
          BlankLines(text[1..], l);
        }
      } else if l != "" {
        BlankLines(text[1..], l);
      }
    }
  }
}
