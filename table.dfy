/**
  The result-set printer shared by both clients: `printTable`, `printSeparator` and
  `printRow`. Printing is modelled by returning the lines that would be printed, in order.
 */
module Table {
  import opened Text

  // ---------------------------------------------------------------------------
  // Specification
  // ---------------------------------------------------------------------------

  /**
    The width of column `c`: the longest of its header and of the cells in that column
    (rows too short to reach column `c` contribute nothing).
   */
  function ColumnWidth(header: string, rows: seq<seq<string>>, c: nat): nat
    decreases |rows|
  {
    if rows == [] then |header|
    else
      var last := rows[|rows| - 1];
      var w0 := ColumnWidth(header, rows[..|rows| - 1], c);
      if c < |last| && |last[c]| > w0 then |last[c]| else w0
  }

  /** The widths of all columns. */
  function Widths(columns: seq<string>, rows: seq<seq<string>>): (w: seq<nat>)
    ensures |w| == |columns|
    ensures forall c :: 0 <= c < |columns| ==> w[c] == ColumnWidth(columns[c], rows, c)
  {
    seq(|columns|, c requires 0 <= c < |columns| => ColumnWidth(columns[c], rows, c))
  }

  /** A row fits the widths when it has no more cells than there are columns and none overflows. */
  predicate Fits(row: seq<string>, widths: seq<nat>)
  {
    |row| <= |widths| && forall i :: 0 <= i < |row| ==> |row[i]| <= widths[i] + 1
  }

  /** The line `printSeparator` writes: `+`, then for each column `width + 2` dashes and `+`. */
  function SeparatorLine(widths: seq<nat>): string
  {
    if widths == [] then "+"
    else SeparatorLine(widths[..|widths| - 1]) + Repeat('-', widths[|widths| - 1] + 2) + "+"
  }

  /**
    The line `printRow` writes: `|`, then for each cell a space, the cell, enough spaces to
    fill the column plus one, and `|`.
   */
  function RowLine(row: seq<string>, widths: seq<nat>): string
    requires Fits(row, widths)
  {
    if row == [] then "|"
    else
      var i := |row| - 1;
      RowLine(row[..i], widths) + " " + row[i] + Repeat(' ', widths[i] - |row[i]| + 1) + "|"
  }

  /** The length of a line over the given columns: one border plus three characters per column beyond its width. */
  function LineWidth(widths: seq<nat>): nat
  {
    if widths == [] then 1 else LineWidth(widths[..|widths| - 1]) + widths[|widths| - 1] + 3
  }

  // ---------------------------------------------------------------------------
  // Operations
  // ---------------------------------------------------------------------------

  /** The width computation at the head of `printTable`. */
  method ColumnWidths(columns: seq<string>, rows: seq<seq<string>>) returns (widths: seq<nat>)
    requires forall k :: 0 <= k < |rows| ==> |rows[k]| <= |columns|
    ensures widths == Widths(columns, rows)
  {
    var w := new nat[|columns|];
    var i := 0;
    while i < |columns|
      invariant 0 <= i <= |columns|
      invariant forall c :: 0 <= c < i ==> w[c] == |columns[c]|
    {
      w[i] := |columns[i]|;
      i := i + 1;
    }
    var k := 0;
    while k < |rows|
      invariant 0 <= k <= |rows|
      invariant forall c :: 0 <= c < |columns| ==> w[c] == ColumnWidth(columns[c], rows[..k], c)
    {
      var row := rows[k];
      var j := 0;
      while j < |row|
        invariant 0 <= j <= |row|
        invariant forall c :: 0 <= c < j ==> w[c] == ColumnWidth(columns[c], rows[..k + 1], c)
        invariant forall c :: j <= c < |columns| ==> w[c] == ColumnWidth(columns[c], rows[..k], c)
      {
        WidthStep(columns[j], rows, k, j);
        if |row[j]| > w[j] {
          w[j] := |row[j]|;
        }
        j := j + 1;
      }
      forall c | |row| <= c < |columns|
        ensures ColumnWidth(columns[c], rows[..k + 1], c) == ColumnWidth(columns[c], rows[..k], c)
      {
        WidthStep(columns[c], rows, k, c);
      }
      k := k + 1;
    }
    assert rows[..|rows|] == rows;
    widths := w[..];
  }

  /** `printSeparator`, building the line. */
  method BuildSeparator(widths: seq<nat>) returns (line: string)
    ensures line == SeparatorLine(widths)
  {
    line := "+";
    var i := 0;
    while i < |widths|
      invariant 0 <= i <= |widths|
      invariant line == SeparatorLine(widths[..i])
    {
      assert widths[..i + 1][..i] == widths[..i];
      line := line + Repeat('-', widths[i] + 2) + "+";
      i := i + 1;
    }
    assert widths[..|widths|] == widths;
  }

  /** `printRow`, building the line; a cell longer than its width plus one would make the padding count negative. */
  method BuildRow(row: seq<string>, widths: seq<nat>) returns (line: string)
    requires Fits(row, widths)
    ensures line == RowLine(row, widths)
  {
    line := "|";
    var i := 0;
    while i < |row|
      invariant 0 <= i <= |row|
      invariant line == RowLine(row[..i], widths)
    {
      assert row[..i + 1][..i] == row[..i];
      var padding := widths[i] - |row[i]|;
      line := line + " " + row[i] + Repeat(' ', padding + 1) + "|";
      i := i + 1;
    }
    assert row[..|row|] == row;
  }

  /** `printTable`: separator, header row, separator, one line per data row, separator. */
  method PrintTable(columns: seq<string>, rows: seq<seq<string>>) returns (lines: seq<string>)
    requires forall k :: 0 <= k < |rows| ==> |rows[k]| <= |columns|
    ensures var w := Widths(columns, rows);
      && Fits(columns, w) && (forall k :: 0 <= k < |rows| ==> Fits(rows[k], w))
      && |lines| == |rows| + 4
      && lines[0] == lines[2] == lines[|rows| + 3] == SeparatorLine(w)
      && lines[1] == RowLine(columns, w)
      && forall k :: 0 <= k < |rows| ==> lines[k + 3] == RowLine(rows[k], w)
  {
    var widths := ColumnWidths(columns, rows);
    WidthsFit(columns, rows);
    var separator := BuildSeparator(widths);
    var header := BuildRow(columns, widths);
    lines := [separator, header, separator];
    var k := 0;
    while k < |rows|
      invariant 0 <= k <= |rows|
      invariant |lines| == k + 3
      invariant lines[0] == lines[2] == separator && lines[1] == header
      invariant forall m :: 0 <= m < k ==> lines[m + 3] == RowLine(rows[m], widths)
    {
      var line := BuildRow(rows[k], widths);
      lines := lines + [line];
      k := k + 1;
    }
    lines := lines + [separator];
  }

  // ---------------------------------------------------------------------------
  // Properties
  // ---------------------------------------------------------------------------

  /** Reading one more row widens column `c` to that row's cell if it is longer. */
  lemma WidthStep(header: string, rows: seq<seq<string>>, k: nat, c: nat)
    requires k < |rows|
    ensures var w0 := ColumnWidth(header, rows[..k], c);
      ColumnWidth(header, rows[..k + 1], c) == if c < |rows[k]| && |rows[k][c]| > w0 then |rows[k][c]| else w0
  {
    assert rows[..k + 1][..k] == rows[..k];
  }

  /**
    The width of a column is the maximum of its header's length and its cells' lengths: it is
    at least each of them and equal to one of them.
   */
  lemma {:induction false} ColumnWidthIsMax(header: string, rows: seq<seq<string>>, c: nat)
    ensures |header| <= ColumnWidth(header, rows, c)
    ensures forall k :: 0 <= k < |rows| && c < |rows[k]| ==> |rows[k][c]| <= ColumnWidth(header, rows, c)
    ensures ColumnWidth(header, rows, c) == |header|
      || exists k :: 0 <= k < |rows| && c < |rows[k]| && ColumnWidth(header, rows, c) == |rows[k][c]|
    decreases |rows|
  {
    if rows != [] {
      var front := rows[..|rows| - 1];
      ColumnWidthIsMax(header, front, c);
      assert forall k :: 0 <= k < |front| ==> front[k] == rows[k];
    }
  }

  /**
    Every computed width is its column's maximum: at least the header's length and every
    cell's, and equal to one of them.
   */
  lemma WidthsAreMaxima(columns: seq<string>, rows: seq<seq<string>>)
    ensures forall c :: 0 <= c < |columns| ==> |columns[c]| <= Widths(columns, rows)[c]
    ensures forall c, k :: 0 <= c < |columns| && 0 <= k < |rows| && c < |rows[k]| ==> |rows[k][c]| <= Widths(columns, rows)[c]
    ensures forall c :: 0 <= c < |columns| ==>
      || Widths(columns, rows)[c] == |columns[c]|
      || exists k :: 0 <= k < |rows| && c < |rows[k]| && Widths(columns, rows)[c] == |rows[k][c]|
  {
    forall c | 0 <= c < |columns|
      ensures |columns[c]| <= Widths(columns, rows)[c]
      ensures forall k :: 0 <= k < |rows| && c < |rows[k]| ==> |rows[k][c]| <= Widths(columns, rows)[c]
      ensures || Widths(columns, rows)[c] == |columns[c]|
              || exists k :: 0 <= k < |rows| && c < |rows[k]| && Widths(columns, rows)[c] == |rows[k][c]|
    {
      ColumnWidthIsMax(columns[c], rows, c);
    }
  }

  /** The header and every data row fit the computed widths, so no padding count is negative. */
  lemma WidthsFit(columns: seq<string>, rows: seq<seq<string>>)
    requires forall k :: 0 <= k < |rows| ==> |rows[k]| <= |columns|
    ensures Fits(columns, Widths(columns, rows))
    ensures forall k :: 0 <= k < |rows| ==> Fits(rows[k], Widths(columns, rows))
  {
    var w := Widths(columns, rows);
    forall c | 0 <= c < |columns|
      ensures |columns[c]| <= w[c] && forall k :: 0 <= k < |rows| && c < |rows[k]| ==> |rows[k][c]| <= w[c]
    {
      ColumnWidthIsMax(columns[c], rows, c);
    }
  }

  lemma {:induction false} SeparatorLength(widths: seq<nat>)
    ensures |SeparatorLine(widths)| == LineWidth(widths)
  {
    if widths != [] {
      SeparatorLength(widths[..|widths| - 1]);
    }
  }

  /** A row line is as long as the separator over the columns it fills. */
  lemma {:induction false} RowLength(row: seq<string>, widths: seq<nat>)
    requires Fits(row, widths)
    ensures |RowLine(row, widths)| == LineWidth(widths[..|row|])
  {
    if row != [] {
      var i := |row| - 1;
      RowLength(row[..i], widths);
      assert widths[..|row|][..i] == widths[..i];
    }
  }

  /** The separator is `+` and `-` only, with `+` at both ends. */
  lemma {:induction false} SeparatorChars(widths: seq<nat>)
    ensures var s := SeparatorLine(widths);
      s[0] == '+' && s[|s| - 1] == '+' && forall j :: 0 <= j < |s| ==> s[j] == '+' || s[j] == '-'
  {
    if widths != [] {
      SeparatorChars(widths[..|widths| - 1]);
    }
  }

  lemma {:induction false} SeparatorPrefix(widths: seq<nat>, c: nat)
    requires c <= |widths|
    ensures SeparatorLine(widths[..c]) <= SeparatorLine(widths)
    decreases |widths|
  {
    if c < |widths| {
      var front := widths[..|widths| - 1];
      assert widths[..c] == front[..c];
      SeparatorPrefix(front, c);
    } else {
      assert widths[..c] == widths;
    }
  }

  lemma {:induction false} RowPrefix(row: seq<string>, widths: seq<nat>, c: nat)
    requires Fits(row, widths) && c <= |row|
    ensures Fits(row[..c], widths) && RowLine(row[..c], widths) <= RowLine(row, widths)
    decreases |row|
  {
    if c < |row| {
      var front := row[..|row| - 1];
      assert row[..c] == front[..c];
      RowPrefix(front, widths, c);
    } else {
      assert row[..c] == row;
    }
  }

  /**
    Column borders line up: after `c` columns, the separator has `+` exactly where a row
    filling those columns has `|`.
   */
  lemma ColumnBorders(row: seq<string>, widths: seq<nat>, c: nat)
    requires Fits(row, widths) && c <= |row|
    ensures var p := LineWidth(widths[..c]) - 1;
      && p < |SeparatorLine(widths)| && SeparatorLine(widths)[p] == '+'
      && p < |RowLine(row, widths)| && RowLine(row, widths)[p] == '|'
  {
    SeparatorPrefix(widths, c);
    SeparatorLength(widths[..c]);
    SeparatorChars(widths[..c]);
    RowPrefix(row, widths, c);
    RowLength(row[..c], widths);
    assert widths[..c][..c] == widths[..c];
    var front := row[..c];
    if front != [] {
      assert RowLine(front, widths)[|RowLine(front, widths)| - 1] == '|';
    }
  }

  /** Cell `i` of a row is printed one space after the border that ends column `i - 1`. */
  lemma CellPlacement(row: seq<string>, widths: seq<nat>, i: nat)
    requires Fits(row, widths) && i < |row|
    ensures var p := LineWidth(widths[..i]) + 1;
      && p + |row[i]| <= |RowLine(row, widths)|
      && RowLine(row, widths)[p..p + |row[i]|] == row[i]
  {
    var front := row[..i + 1];
    RowPrefix(row, widths, i + 1);
    assert front[..i] == row[..i] && front[i] == row[i];
    LastCell(front, widths);
    PrefixLength(row, widths, i);
    var p := |RowLine(row[..i], widths)| + 1;
    InPrefix(RowLine(front, widths), RowLine(row, widths), p, p + |row[i]|);
  }

  lemma PrefixLength(row: seq<string>, widths: seq<nat>, c: nat)
    requires Fits(row, widths) && c <= |row|
    ensures Fits(row[..c], widths) && |RowLine(row[..c], widths)| == LineWidth(widths[..c])
  {
    RowLength(row[..c], widths);
    assert widths[..c][..c] == widths[..c];
  }

  /** The last cell of a row follows the line of the cells before it and one space. */
  lemma LastCell(row: seq<string>, widths: seq<nat>)
    requires Fits(row, widths) && row != []
    ensures var i := |row| - 1;
      var p := |RowLine(row[..i], widths)| + 1;
      && p + |row[i]| <= |RowLine(row, widths)|
      && RowLine(row, widths)[p..p + |row[i]|] == row[i]
  {
    var i := |row| - 1;
    var head := RowLine(row[..i], widths);
    var tail := Repeat(' ', widths[i] - |row[i]| + 1) + "|";
    assert RowLine(row, widths) == (head + " ") + row[i] + tail;
    Middle(head + " ", row[i], tail);
  }

  lemma Middle(a: string, b: string, c: string)
    ensures (a + b + c)[|a|..|a| + |b|] == b
  {
  }

  lemma InPrefix(a: string, b: string, i: nat, j: nat)
    requires a <= b && i <= j <= |a|
    ensures b[i..j] == a[i..j]
  {
  }

  /** When every data row has a cell per column, all printed lines have the same length. */
  lemma AlignedTable(columns: seq<string>, rows: seq<seq<string>>)
    requires forall k :: 0 <= k < |rows| ==> |rows[k]| == |columns|
    ensures var w := Widths(columns, rows);
      && Fits(columns, w)
      && |RowLine(columns, w)| == |SeparatorLine(w)|
      && forall k :: 0 <= k < |rows| ==> Fits(rows[k], w) && |RowLine(rows[k], w)| == |SeparatorLine(w)|
  {
    var w := Widths(columns, rows);
    WidthsFit(columns, rows);
    assert w[..|columns|] == w;
    SeparatorLength(w);
    RowLength(columns, w);
    forall k | 0 <= k < |rows|
      ensures |RowLine(rows[k], w)| == |SeparatorLine(w)|
    {
      RowLength(rows[k], w);
    }
  }
}
