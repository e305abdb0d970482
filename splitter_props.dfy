/**
  What the splitter guarantees, stated about the state machine in module `Splitter`
  (and so, through `SplitSQLStatements`' postcondition, about the source's loop):
  whole runs through each kind of region, preservation of every character but the
  boundary semicolons, and agreement with a plain split on `;` for scripts in which
  nothing opens a quote, a comment or a dollar-quoted body.
 */
module SplitterProps {
  import opened Text
  import opened Splitter

  // ---- whole regions ------------------------------------------------------------

  /** A character that neither opens a region nor ends a statement, read in `Normal`. */
  predicate IsPlainChar(c: char)
  {
    c != '\'' && c != '"' && c != ';' && c != '-' && c != '/' && c != '$'
  }

  /** The closing character of a quoted region. */
  function QuoteOf(r: Region): char
  {
    if r == SingleQuoted then '\'' else '"'
  }

  /** Reading index `m` in region `r` keeps that one character and leaves the region as it is. */
  predicate Stays(s: string, r: Region, m: nat)
    requires m < |s|
  {
    match r
    case Normal => IsPlainChar(s[m])
    case LineComment => s[m] != '\n'
    case BlockComment => !ClosesBlockComment(s, m)
    case SingleQuoted => s[m] != '\''
    case DoubleQuoted => s[m] != '"'
    case DollarQuoted(tag) => |tag| >= 1 && !ClosesDollarQuote(s, m, tag)
  }

  lemma StepStays(v: Variant, s: string, sc: Scan)
    requires ValidScan(s, sc) && sc.pos < |s| && Stays(s, sc.region, sc.pos)
    ensures Run(v, s, sc) == Run(v, s, Scan(sc.pos + 1, sc.region, sc.start, sc.cut))
  {
    match sc.region
    case Normal => StepPlainOrQuote(v, s, sc);
    case LineComment => StepInLineComment(v, s, sc);
    case BlockComment => StepInBlockComment(v, s, sc);
    case SingleQuoted => StepPlainOrQuote(v, s, sc);
    case DoubleQuoted => StepPlainOrQuote(v, s, sc);
    case DollarQuoted(_) => StepInDollarQuoted(v, s, sc);
    RunStep(v, s, sc);
  }

  /** Every index in `[a, j)` stays in region `r` (the quantifier-free form the proofs use). */
  predicate StaysFrom(s: string, r: Region, a: nat, j: nat)
    requires a <= j <= |s|
    decreases j - a
  {
    a == j || (Stays(s, r, a) && StaysFrom(s, r, a + 1, j))
  }

  lemma {:induction false} StaysFromAll(s: string, r: Region, a: nat, j: nat)
    requires a <= j <= |s|
    requires forall m :: a <= m < j ==> Stays(s, r, m)
    ensures StaysFrom(s, r, a, j)
    decreases j - a
  {
    if a < j {
      StaysFromAll(s, r, a + 1, j);
    }
  }

  /** While nothing ends or changes the region, the scan only moves on: no statement is cut. */
  lemma {:induction false} RunStays(v: Variant, s: string, sc: Scan, j: nat)
    requires ValidScan(s, sc) && sc.pos <= j <= |s| && StaysFrom(s, sc.region, sc.pos, j)
    ensures Run(v, s, sc) == Run(v, s, Scan(j, sc.region, sc.start, sc.cut))
    decreases j - sc.pos
  {
    if sc.pos < j {
      StepStays(v, s, sc);
      RunStays(v, s, Scan(sc.pos + 1, sc.region, sc.start, sc.cut), j);
    }
  }

  /** A stretch of plain characters stays in the statement being scanned, and nothing else happens. */
  lemma RunPlain(v: Variant, s: string, sc: Scan, j: nat)
    requires ValidScan(s, sc) && sc.region == Normal && sc.pos <= j <= |s|
    requires forall m :: sc.pos <= m < j ==> IsPlainChar(s[m])
    ensures Run(v, s, sc) == Run(v, s, Scan(j, Normal, sc.start, sc.cut))
  {
    StaysFromAll(s, Normal, sc.pos, j);
    RunStays(v, s, sc, j);
  }

  /**
    A line comment runs to the first newline, which it keeps, and then the scan is back
    in `Normal`: a `;` inside it never ends a statement.
   */
  lemma RunLineComment(v: Variant, s: string, sc: Scan, j: nat)
    requires ValidScan(s, sc) && sc.region == LineComment && sc.pos <= j < |s| && s[j] == '\n'
    requires forall m :: sc.pos <= m < j ==> s[m] != '\n'
    ensures Run(v, s, sc) == Run(v, s, Scan(j + 1, Normal, sc.start, sc.cut))
  {
    StaysFromAll(s, LineComment, sc.pos, j);
    RunStays(v, s, sc, j);
    var mid := Scan(j, LineComment, sc.start, sc.cut);
    StepInLineComment(v, s, mid);
    RunStep(v, s, mid);
  }

  /** A line comment that no newline ends runs to the end of the input, and all of it is kept. */
  lemma RunLineCommentToEnd(v: Variant, s: string, sc: Scan)
    requires ValidScan(s, sc) && sc.region == LineComment
    requires forall m :: sc.pos <= m < |s| ==> s[m] != '\n'
    ensures Run(v, s, sc) == Scan(|s|, LineComment, sc.start, sc.cut)
  {
    StaysFromAll(s, LineComment, sc.pos, |s|);
    RunStays(v, s, sc, |s|);
  }

  // A block comment runs to the first `*` followed by `/`, both kept; `/*/` does not close
  // it (the `*` there was read by the opener), and a `;` inside never ends a statement.
  lemma RunBlockComment(v: Variant, s: string, sc: Scan, j: nat)
    requires ValidScan(s, sc) && sc.region == BlockComment && sc.pos <= j < |s| && ClosesBlockComment(s, j)
    requires forall m :: sc.pos <= m < j ==> !ClosesBlockComment(s, m)
    ensures j + 2 <= |s|
    ensures Run(v, s, sc) == Run(v, s, Scan(j + 2, Normal, sc.start, sc.cut))
  {
    StaysFromAll(s, BlockComment, sc.pos, j);
    RunStays(v, s, sc, j);
    var mid := Scan(j, BlockComment, sc.start, sc.cut);
    StepInBlockComment(v, s, mid);
    RunStep(v, s, mid);
  }

  // A block comment that is never closed runs to the end of the input; its text is
  // still flushed as the last segment.
  lemma RunBlockCommentToEnd(v: Variant, s: string, sc: Scan)
    requires ValidScan(s, sc) && sc.region == BlockComment
    requires forall m :: sc.pos <= m < |s| ==> !ClosesBlockComment(s, m)
    ensures Run(v, s, sc) == Scan(|s|, BlockComment, sc.start, sc.cut)
  {
    StaysFromAll(s, BlockComment, sc.pos, |s|);
    RunStays(v, s, sc, |s|);
  }

  /**
    A quoted literal runs to the next occurrence of its own quote, with no escapes: a
    backslash is an ordinary character and `''` closes the literal and opens a new one.
   */
  lemma RunQuoted(v: Variant, s: string, sc: Scan, j: nat)
    requires ValidScan(s, sc) && (sc.region == SingleQuoted || sc.region == DoubleQuoted)
    requires sc.pos <= j < |s| && s[j] == QuoteOf(sc.region)
    requires forall m :: sc.pos <= m < j ==> s[m] != QuoteOf(sc.region)
    ensures Run(v, s, sc) == Run(v, s, Scan(j + 1, Normal, sc.start, sc.cut))
  {
    StaysFromAll(s, sc.region, sc.pos, j);
    RunStays(v, s, sc, j);
    var mid := Scan(j, sc.region, sc.start, sc.cut);
    StepPlainOrQuote(v, s, mid);
    RunStep(v, s, mid);
  }

  /**
    A dollar-quoted body runs to the first `$` followed by the rest of its own tag, and
    keeps the whole closing tag; any other `$`, including one that starts a different
    tag, is an ordinary character.
   */
  lemma RunDollarQuoted(v: Variant, s: string, sc: Scan, tag: string, j: nat)
    requires ValidScan(s, sc) && sc.region == DollarQuoted(tag)
    requires sc.pos <= j < |s| && ClosesDollarQuote(s, j, tag)
    requires forall m :: sc.pos <= m < j ==> !ClosesDollarQuote(s, m, tag)
    ensures j + |tag| <= |s|
    ensures Run(v, s, sc) == Run(v, s, Scan(j + |tag|, Normal, sc.start, sc.cut))
  {
    StaysFromAll(s, sc.region, sc.pos, j);
    RunStays(v, s, sc, j);
    DollarCloseStep(v, s, Scan(j, sc.region, sc.start, sc.cut));
  }

  lemma DollarCloseStep(v: Variant, s: string, sc: Scan)
    requires ValidScan(s, sc) && sc.pos < |s| && sc.region.DollarQuoted?
    requires ClosesDollarQuote(s, sc.pos, sc.region.tag)
    ensures sc.pos + |sc.region.tag| <= |s|
    ensures Run(v, s, sc) == Run(v, s, Scan(sc.pos + |sc.region.tag|, Normal, sc.start, sc.cut))
  {
    StepInDollarQuoted(v, s, sc);
    RunStep(v, s, sc);
  }

  // ---- content preservation -----------------------------------------------------

  /** The buffers joined back together with a `;` between each two. */
  function JoinWithSemicolons(bufs: seq<string>): string
  {
    if |bufs| == 0 then []
    else if |bufs| == 1 then bufs[0]
    else JoinWithSemicolons(bufs[..|bufs| - 1]) + ";" + bufs[|bufs| - 1]
  }

  lemma ExtendLast(cut: seq<string>, buf: string, t: string)
    ensures JoinWithSemicolons(cut + [buf + t]) == JoinWithSemicolons(cut + [buf]) + t
  {
    if |cut| > 0 {
      assert (cut + [buf + t])[..|cut|] == cut;
      assert (cut + [buf])[..|cut|] == cut;
    }
  }

  lemma CutLast(cut: seq<string>, buf: string)
    ensures JoinWithSemicolons(cut + [buf] + [[]]) == JoinWithSemicolons(cut + [buf]) + ";"
  {
    assert (cut + [buf] + [[]])[..|cut| + 1] == cut + [buf];
  }

  /** A step keeps "the pieces joined with `;` spell the input read so far". */
  lemma StepPreservesContent(v: Variant, s: string, sc: Scan)
    requires ValidScan(s, sc) && sc.pos < |s|
    requires JoinWithSemicolons(Pieces(s, sc)) == s[..sc.pos]
    ensures var r := Step(v, s, sc); JoinWithSemicolons(Pieces(s, r)) == s[..r.pos]
  {
    var r := Step(v, s, sc);
    StepCutsOnlyAtBoundary(v, s, sc);
    if IsBoundary(s, sc) {
      CutLast(sc.cut, Buffer(s, sc));
      assert Pieces(s, r) == Pieces(s, sc) + [[]];
      assert s[..r.pos] == s[..sc.pos] + ";";
    } else {
      ExtendLast(sc.cut, Buffer(s, sc), s[sc.pos..r.pos]);
      SliceConcat(s, 0, sc.pos, r.pos);
    }
  }

  lemma {:induction false} RunPreservesContent(v: Variant, s: string, sc: Scan)
    requires ValidScan(s, sc)
    requires JoinWithSemicolons(Pieces(s, sc)) == s[..sc.pos]
    ensures JoinWithSemicolons(Pieces(s, Run(v, s, sc))) == s
    decreases |s| - sc.pos
  {
    if sc.pos < |s| {
      StepPreservesContent(v, s, sc);
      RunPreservesContent(v, s, Step(v, s, sc));
    } else {
      assert s[..sc.pos] == s;
    }
  }

  /**
    Content preservation: every character of the script except the boundary semicolons
    lands in exactly one segment, in input order, so joining the segments with `;` gives
    the script back.
   */
  lemma ContentPreserved(v: Variant, s: string)
    ensures JoinWithSemicolons(Segments(v, s)) == s
  {
    assert JoinWithSemicolons(Pieces(s, Start)) == s[..0];
    RunPreservesContent(v, s, Start);
  }

  // ---- plain scripts ----------------------------------------------------------

  /**
    A reference split: the pieces of `t` between the semicolons, from the front, with
    the piece after the last `;` (possibly empty) at the end.
   */
  function SplitAtSemicolons(t: string): (r: seq<string>)
    ensures |r| >= 1
    ensures forall k :: 0 <= k < |r| ==> ';' !in r[k]
  {
    if t == [] then [[]]
    else
      var init := SplitAtSemicolons(t[..|t| - 1]);
      if t[|t| - 1] == ';' then init + [[]]
      else init[..|init| - 1] + [init[|init| - 1] + [t[|t| - 1]]]
  }

  /** The reference split loses nothing but the separators. */
  lemma {:induction false} SplitAtSemicolonsJoins(t: string)
    ensures JoinWithSemicolons(SplitAtSemicolons(t)) == t
  {
    if t != [] {
      var n := |t| - 1;
      var init := SplitAtSemicolons(t[..n]);
      SplitAtSemicolonsJoins(t[..n]);
      var base, final := init[..|init| - 1], init[|init| - 1];
      assert init == base + [final];
      assert t == t[..n] + [t[n]];
      if t[n] == ';' {
        assert SplitAtSemicolons(t) == base + [final] + [[]];
        CutLast(base, final);
      } else {
        assert SplitAtSemicolons(t) == base + [final + [t[n]]];
        ExtendLast(base, final, [t[n]]);
      }
    }
  }

  /** Index `m`, read in `Normal`, opens nothing: no comment opener, and no detected tag at a `$`. */
  predicate OpensNothing(v: Variant, s: string, m: nat)
    requires m < |s|
  {
    && !OpensLineComment(v, s, m) && !OpensBlockComment(s, m)
    && (s[m] == '$' ==> FindTagEnd(Peek(s, m + 1, TagWindow)).None?)
  }

  /**
    No quote, and no index at which a comment or a dollar-quoted body would open: a `-`,
    `/` or `$` may appear as long as what follows it opens nothing. Only `;` is special.
   */
  predicate IsPlainScript(v: Variant, s: string)
  {
    forall m :: 0 <= m < |s| ==> s[m] != '\'' && s[m] != '"' && OpensNothing(v, s, m)
  }

  /** One step of a plain script: the scan stays in `Normal` and keeps following the reference split. */
  lemma PlainScriptStep(v: Variant, s: string, sc: Scan)
    requires ValidScan(s, sc) && sc.pos < |s| && sc.region == Normal
    requires s[sc.pos] != '\'' && s[sc.pos] != '"' && OpensNothing(v, s, sc.pos)
    requires Pieces(s, sc) == SplitAtSemicolons(s[..sc.pos])
    ensures var r := Step(v, s, sc); r.region == Normal && Pieces(s, r) == SplitAtSemicolons(s[..r.pos])
  {
    var r := Step(v, s, sc);
    StepPlainOrQuote(v, s, sc);
    assert s[..r.pos][..sc.pos] == s[..sc.pos];
    if s[sc.pos] != ';' {
      SliceAppend(s, sc.start, sc.pos);
    }
  }

  lemma {:induction false} RunPlainScript(v: Variant, s: string, sc: Scan)
    requires IsPlainScript(v, s) && ValidScan(s, sc) && sc.region == Normal
    requires Pieces(s, sc) == SplitAtSemicolons(s[..sc.pos])
    ensures Pieces(s, Run(v, s, sc)) == SplitAtSemicolons(s)
    decreases |s| - sc.pos
  {
    if sc.pos < |s| {
      PlainScriptStep(v, s, sc);
      RunPlainScript(v, s, Step(v, s, sc));
    } else {
      assert s[..sc.pos] == s;
    }
  }

  /**
    For a script in which nothing opens a quote, a comment or a dollar-quoted body, a
    version returns the nonempty trimmed pieces between semicolons.
   */
  lemma PlainScriptSplit(v: Variant, s: string)
    requires IsPlainScript(v, s)
    ensures Segments(v, s) == SplitAtSemicolons(s)
    ensures Split(v, s) == Emit(v, SplitAtSemicolons(s))
  {
    assert s[..0] == [];
    RunPlainScript(v, s, Start);
  }
}
