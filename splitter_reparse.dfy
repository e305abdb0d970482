/**
  Splitting is idempotent: every statement the splitter returns, split again by the same
  version, comes back whole as the only statement.

  A statement is the trim of a stretch `s[a..b]` that the scan of the script `s` crosses
  from `Normal` without cutting. Scanning the statement on its own reads the same
  characters with the same regions; only its lookahead is shorter near its end. The proof
  is a simulation of the two scans (`Simulate`). The shorter lookahead changes a step in
  one case only: Go's `--` as the last two characters of a statement, which the whole
  script (with a space after them) reads as a line-comment opener. Nothing after that
  point can cut.
 */
module SplitterReparse {
  import opened Wrappers
  import opened Text
  import opened Splitter

  // ---- quiet stretches of a scan ------------------------------------------------

  /** From `sc` the scan lands exactly on index `b` and cuts nothing on the way. */
  predicate Quiet(v: Variant, s: string, sc: Scan, b: nat)
    requires ValidScan(s, sc) && sc.pos <= b <= |s|
    decreases b - sc.pos
  {
    sc.pos == b || (!IsBoundary(s, sc) && Step(v, s, sc).pos <= b && Quiet(v, s, Step(v, s, sc), b))
  }

  /** A step that does not cut keeps the statement's start and the buffers cut so far. */
  lemma StepKeeps(v: Variant, s: string, sc: Scan)
    requires ValidScan(s, sc) && sc.pos < |s| && !IsBoundary(s, sc)
    ensures Step(v, s, sc).start == sc.start && Step(v, s, sc).cut == sc.cut
  {
  }

  /** The scan from `sc` up to its next boundary, or to the end of the input. */
  function ToBoundary(v: Variant, s: string, sc: Scan): (r: Scan)
    requires ValidScan(s, sc)
    ensures ValidScan(s, r) && sc.pos <= r.pos
    ensures r.pos < |s| ==> IsBoundary(s, r)
    decreases |s| - sc.pos
  {
    if sc.pos == |s| || IsBoundary(s, sc) then sc else ToBoundary(v, s, Step(v, s, sc))
  }

  /** Reaching the next boundary is quiet, keeps the statement begun at `sc`, and does not change where the scan ends. */
  lemma {:induction false} ToBoundaryQuiet(v: Variant, s: string, sc: Scan)
    requires ValidScan(s, sc)
    ensures var r := ToBoundary(v, s, sc);
      && Quiet(v, s, sc, r.pos) && r.start == sc.start && r.cut == sc.cut
      && Run(v, s, r) == Run(v, s, sc)
    decreases |s| - sc.pos
  {
    if !(sc.pos == |s| || IsBoundary(s, sc)) {
      StepKeeps(v, s, sc);
      RunStep(v, s, sc);
      ToBoundaryQuiet(v, s, Step(v, s, sc));
    }
  }

  /** The boundary step: the statement is cut off and the next one begins in `Normal`. */
  lemma StepAtBoundary(v: Variant, s: string, sc: Scan)
    requires ValidScan(s, sc) && sc.pos < |s| && IsBoundary(s, sc)
    ensures Step(v, s, sc) == Scan(sc.pos + 1, Normal, sc.pos + 1, sc.cut + [s[sc.start..sc.pos]])
  {
    StepPlainOrQuote(v, s, sc);
  }

  /** Without a `;` ahead, the rest of a scan cuts nothing. */
  lemma {:induction false} NoSemicolonRun(v: Variant, t: string, tc: Scan)
    requires ValidScan(t, tc)
    requires forall j :: tc.pos <= j < |t| ==> t[j] != ';'
    ensures Run(v, t, tc).cut == tc.cut && Run(v, t, tc).start == tc.start
    decreases |t| - tc.pos
  {
    if tc.pos < |t| {
      StepKeeps(v, t, tc);
      NoSemicolonRun(v, t, Step(v, t, tc));
    }
  }

  // ---- whitespace ---------------------------------------------------------------

  /** No whitespace character of either version opens, closes or ends anything. */
  lemma SpaceIsInert(v: Variant, c: char)
    requires IsSpace(v, c)
    ensures c != '\'' && c != '"' && c != ';' && c != '-' && c != '/' && c != '*' && c != '$'
  {
  }

  /** Leading whitespace is read in `Normal` and leaves the scan there. */
  lemma {:induction false} QuietSkipsSpace(v: Variant, s: string, sc: Scan, m: nat, b: nat)
    requires ValidScan(s, sc) && sc.region == Normal && sc.pos <= m <= b <= |s|
    requires Quiet(v, s, sc, b)
    requires forall j :: sc.pos <= j < m ==> IsSpace(v, s[j])
    ensures Quiet(v, s, Scan(m, Normal, sc.start, sc.cut), b)
    decreases m - sc.pos
  {
    if sc.pos < m {
      SpaceIsInert(v, s[sc.pos]);
      StepPlainOrQuote(v, s, sc);
      QuietSkipsSpace(v, s, Scan(sc.pos + 1, Normal, sc.start, sc.cut), m, b);
    }
  }

  lemma LongOpenerStepEndsOnDelimiter(v: Variant, s: string, sc: Scan)
    requires ValidScan(s, sc) && sc.pos < |s| && sc.region == Normal
    requires OpensLineComment(v, s, sc.pos) || OpensBlockComment(s, sc.pos)
    ensures var r := Step(v, s, sc); r.pos > sc.pos + 1 ==> !IsSpace(v, s[r.pos - 1])
  {
    var q := sc.pos;
    assert Peek(s, q + 1, 1)[0] == s[q + 1];
    if OpensLineComment(v, s, q) {
      StepOpensLineComment(v, s, sc);
      assert Peek(s, q + 1, 2)[0] == s[q + 1];
    } else {
      StepOpensBlockComment(v, s, sc);
    }
  }

  lemma LongDollarStepEndsOnDelimiter(v: Variant, s: string, sc: Scan)
    requires ValidScan(s, sc) && sc.pos < |s| && sc.region == Normal
    requires !OpensLineComment(v, s, sc.pos) && !OpensBlockComment(s, sc.pos) && s[sc.pos] == '$'
    ensures var r := Step(v, s, sc); r.pos > sc.pos + 1 ==> !IsSpace(v, s[r.pos - 1])
  {
    var q := sc.pos;
    StepAtDollar(v, s, sc);
    match FindTagEnd(Peek(s, q + 1, TagWindow))
    case Some(k) =>
      assert Peek(s, q + 1, TagWindow)[k] == s[q + k + 1];
    case None =>
  }

  lemma LongNormalStepEndsOnDelimiter(v: Variant, s: string, sc: Scan)
    requires ValidScan(s, sc) && sc.pos < |s| && sc.region == Normal
    ensures var r := Step(v, s, sc); r.pos > sc.pos + 1 ==> !IsSpace(v, s[r.pos - 1])
  {
    if OpensLineComment(v, s, sc.pos) || OpensBlockComment(s, sc.pos) {
      LongOpenerStepEndsOnDelimiter(v, s, sc);
    } else if s[sc.pos] == '$' {
      LongDollarStepEndsOnDelimiter(v, s, sc);
    } else {
      StepPlainOrQuote(v, s, sc);
    }
  }

  lemma LongInnerStepEndsOnDelimiter(v: Variant, s: string, sc: Scan)
    requires ValidScan(s, sc) && sc.pos < |s| && sc.region != Normal
    ensures var r := Step(v, s, sc); r.pos > sc.pos + 1 ==> !IsSpace(v, s[r.pos - 1])
  {
    var q := sc.pos;
    if sc.region == BlockComment {
      StepInBlockComment(v, s, sc);
      if ClosesBlockComment(s, q) {
        BlockCloseChars(s, q);
        assert s[q + 1] == s[q..q + 2][1];
      }
    } else if sc.region.DollarQuoted? {
      var tag := sc.region.tag;
      StepInDollarQuoted(v, s, sc);
      if ClosesDollarQuote(s, q, tag) {
        assert s[q + |tag| - 1] == tag[1..][|tag| - 2];
      }
    }
  }

  /**
    A step that reads more than one character ends on a delimiter character (`-`, `*`,
    `/` or `$`), never on whitespace.
   */
  lemma LongStepEndsOnDelimiter(v: Variant, s: string, sc: Scan)
    requires ValidScan(s, sc) && sc.pos < |s|
    ensures var r := Step(v, s, sc); r.pos > sc.pos + 1 ==> !IsSpace(v, s[r.pos - 1])
  {
    if sc.region == Normal {
      LongNormalStepEndsOnDelimiter(v, s, sc);
    } else {
      LongInnerStepEndsOnDelimiter(v, s, sc);
    }
  }

  // ---- lookahead inside a statement ---------------------------------------------

  /** A slice of the statement `t == s[o..e]` is the matching slice of the script. */
  lemma SliceInside(s: string, t: string, o: nat, e: nat, i: nat, j: nat)
    requires o <= e <= |s| && t == s[o..e] && i <= j <= |t|
    ensures t[i..j] == s[o + i..o + j]
  {
    assert forall k :: 0 <= k < j - i ==> t[i..j][k] == s[o + i + k];
  }

  /**
    The lookahead of the statement `t == s[o..e]` at its index `q - o` is a prefix of the
    script's at `q`, and the same whenever it stays inside the statement.
   */
  lemma PeekInside(s: string, t: string, o: nat, e: nat, q: nat, n: nat)
    requires o <= q < e <= |s| && t == s[o..e]
    ensures var tw, sw := Peek(t, q - o + 1, n), Peek(s, q + 1, n);
      && |tw| == Min(n, e - q - 1) && |tw| <= |sw| && tw == sw[..|tw|]
      && (q + 1 + n <= e ==> tw == sw)
  {
    var tw, sw := Peek(t, q - o + 1, n), Peek(s, q + 1, n);
    SliceInside(s, t, o, e, q - o + 1, q - o + 1 + |tw|);
    assert sw[..|tw|] == s[q + 1..q + 1 + |tw|];
  }

  lemma LineOpenerInside(v: Variant, s: string, t: string, o: nat, e: nat, q: nat)
    requires o <= q < e <= |s| && t == s[o..e]
    ensures OpensLineComment(v, t, q - o) ==> OpensLineComment(v, s, q)
    ensures OpensLineComment(v, s, q) ==> q + 2 <= |s| && s[q + 1] == '-'
    ensures OpensLineComment(v, s, q) && q + 2 <= e ==> OpensLineComment(v, t, q - o) || (v == Go && q + 2 == e)
  {
    PeekInside(s, t, o, e, q, 1);
    PeekInside(s, t, o, e, q, 2);
    assert t[q - o] == s[q];
    if OpensLineComment(v, s, q) {
      assert Peek(s, q + 1, 1)[0] == s[q + 1];
      assert Peek(s, q + 1, 2)[0] == s[q + 1];
    }
  }

  lemma BlockDelimitersInside(s: string, t: string, o: nat, e: nat, q: nat)
    requires o <= q < e <= |s| && t == s[o..e]
    ensures OpensBlockComment(t, q - o) ==> OpensBlockComment(s, q)
    ensures OpensBlockComment(s, q) && q + 2 <= e ==> OpensBlockComment(t, q - o)
    ensures ClosesBlockComment(t, q - o) ==> ClosesBlockComment(s, q)
    ensures ClosesBlockComment(s, q) && q + 2 <= e ==> ClosesBlockComment(t, q - o)
  {
    PeekInside(s, t, o, e, q, 1);
    assert t[q - o] == s[q];
  }

  lemma DollarCloseInside(s: string, t: string, o: nat, e: nat, q: nat, tag: string)
    requires o <= q < e <= |s| && t == s[o..e] && |tag| >= 1
    ensures ClosesDollarQuote(t, q - o, tag) ==> ClosesDollarQuote(s, q, tag)
    ensures ClosesDollarQuote(s, q, tag) && q + |tag| <= e ==> ClosesDollarQuote(t, q - o, tag)
  {
    PeekInside(s, t, o, e, q, |tag| - 1);
    assert t[q - o] == s[q];
  }

  /** A tag end found in a lookahead is found in any lookahead that extends it, and in any prefix long enough to hold it. */
  lemma TagEndInPrefix(tw: string, sw: string, k: nat)
    requires |tw| <= |sw| && tw == sw[..|tw|]
    ensures TagEndsAt(tw, k) ==> TagEndsAt(sw, k)
    ensures TagEndsAt(sw, k) && k < |tw| ==> TagEndsAt(tw, k)
  {
    if k < |tw| {
      assert forall j :: 0 <= j <= k ==> tw[j] == sw[j];
    }
  }

  /** There is at most one first `$`. */
  lemma TagEndUnique(p: string, k: nat, k': nat)
    requires TagEndsAt(p, k) && TagEndsAt(p, k')
    ensures k == k'
  {
  }

  lemma TagInside(s: string, t: string, o: nat, e: nat, q: nat)
    requires o <= q < e <= |s| && t == s[o..e]
    ensures var tf, sf := FindTagEnd(Peek(t, q - o + 1, TagWindow)), FindTagEnd(Peek(s, q + 1, TagWindow));
      && (sf.None? ==> tf.None?)
      && (sf.Some? && q + sf.value + 2 <= e ==> tf == sf && t[q - o..q - o + sf.value + 2] == s[q..q + sf.value + 2])
  {
    var tw, sw := Peek(t, q - o + 1, TagWindow), Peek(s, q + 1, TagWindow);
    PeekInside(s, t, o, e, q, TagWindow);
    var tf, sf := FindTagEnd(tw), FindTagEnd(sw);
    if tf.Some? {
      TagEndInPrefix(tw, sw, tf.value);
    }
    if sf.Some? && q + sf.value + 2 <= e {
      TagEndInPrefix(tw, sw, sf.value);
      TagEndUnique(tw, tf.value, sf.value);
      SliceInside(s, t, o, e, q - o, q - o + sf.value + 2);
    }
  }

  // ---- one step, in the statement and in the script -----------------------------

  /** Statement scan `tc` and script scan `sc` are at the same character, in the same region. */
  predicate InStep(s: string, t: string, o: nat, e: nat, sc: Scan, tc: Scan)
  {
    && o <= sc.pos < e <= |s| && t == s[o..e] && ValidScan(s, sc)
    && ValidScan(t, tc) && tc.pos == sc.pos - o && tc.region == sc.region
    && !IsBoundary(s, sc)
  }

  lemma LineOpenerStepInside(v: Variant, s: string, t: string, o: nat, e: nat, sc: Scan, tc: Scan)
    requires InStep(s, t, o, e, sc, tc) && sc.region == Normal && OpensLineComment(v, s, sc.pos)
    requires Step(v, s, sc).pos <= e
    ensures var r := Step(v, s, sc);
      || Step(v, t, tc) == Scan(r.pos - o, r.region, tc.start, tc.cut)
      || forall j :: tc.pos <= j < |t| ==> t[j] != ';'
  {
    LineOpenerInside(v, s, t, o, e, sc.pos);
    StepOpensLineComment(v, s, sc);
    if OpensLineComment(v, t, tc.pos) {
      StepOpensLineComment(v, t, tc);
    } else {
      assert t[tc.pos] == s[sc.pos] && t[tc.pos + 1] == s[sc.pos + 1];
    }
  }

  lemma BlockOpenerStepInside(v: Variant, s: string, t: string, o: nat, e: nat, sc: Scan, tc: Scan)
    requires InStep(s, t, o, e, sc, tc) && sc.region == Normal
    requires !OpensLineComment(v, s, sc.pos) && OpensBlockComment(s, sc.pos)
    requires Step(v, s, sc).pos <= e
    ensures var r := Step(v, s, sc); Step(v, t, tc) == Scan(r.pos - o, r.region, tc.start, tc.cut)
  {
    LineOpenerInside(v, s, t, o, e, sc.pos);
    BlockDelimitersInside(s, t, o, e, sc.pos);
    StepOpensBlockComment(v, s, sc);
    StepOpensBlockComment(v, t, tc);
  }

  lemma TagStepInside(v: Variant, s: string, t: string, o: nat, e: nat, sc: Scan, tc: Scan)
    requires InStep(s, t, o, e, sc, tc) && sc.region == Normal
    requires !OpensLineComment(v, s, sc.pos) && !OpensBlockComment(s, sc.pos) && s[sc.pos] == '$'
    requires FindTagEnd(Peek(s, sc.pos + 1, TagWindow)).Some?
    requires Step(v, s, sc).pos <= e
    ensures var r := Step(v, s, sc); Step(v, t, tc) == Scan(r.pos - o, r.region, tc.start, tc.cut)
  {
    assert t[tc.pos] == '$';
    TagInside(s, t, o, e, sc.pos);
    StepAtDollar(v, s, sc);
    StepAtDollar(v, t, tc);
  }

  lemma NoTagStepInside(v: Variant, s: string, t: string, o: nat, e: nat, sc: Scan, tc: Scan)
    requires InStep(s, t, o, e, sc, tc) && sc.region == Normal
    requires !OpensLineComment(v, s, sc.pos) && !OpensBlockComment(s, sc.pos) && s[sc.pos] == '$'
    requires FindTagEnd(Peek(s, sc.pos + 1, TagWindow)).None?
    ensures var r := Step(v, s, sc); Step(v, t, tc) == Scan(r.pos - o, r.region, tc.start, tc.cut)
  {
    assert t[tc.pos] == '$';
    TagInside(s, t, o, e, sc.pos);
    StepPlainOrQuote(v, s, sc);
    StepPlainOrQuote(v, t, tc);
  }

  lemma PlainStepInside(v: Variant, s: string, t: string, o: nat, e: nat, sc: Scan, tc: Scan)
    requires InStep(s, t, o, e, sc, tc) && sc.region == Normal
    requires !OpensLineComment(v, s, sc.pos) && !OpensBlockComment(s, sc.pos) && s[sc.pos] != '$'
    ensures var r := Step(v, s, sc); Step(v, t, tc) == Scan(r.pos - o, r.region, tc.start, tc.cut)
  {
    assert t[tc.pos] == s[sc.pos];
    LineOpenerInside(v, s, t, o, e, sc.pos);
    BlockDelimitersInside(s, t, o, e, sc.pos);
    StepPlainOrQuote(v, s, sc);
    StepPlainOrQuote(v, t, tc);
  }

  /**
    The two steps from `Normal` agree, except for Go's `--` as the last two characters of
    the statement, after which no `;` follows.
   */
  lemma StepInsideNormal(v: Variant, s: string, t: string, o: nat, e: nat, sc: Scan, tc: Scan)
    requires InStep(s, t, o, e, sc, tc) && sc.region == Normal && Step(v, s, sc).pos <= e
    ensures var r := Step(v, s, sc);
      || Step(v, t, tc) == Scan(r.pos - o, r.region, tc.start, tc.cut)
      || forall j :: tc.pos <= j < |t| ==> t[j] != ';'
  {
    if OpensLineComment(v, s, sc.pos) {
      LineOpenerStepInside(v, s, t, o, e, sc, tc);
    } else if OpensBlockComment(s, sc.pos) {
      BlockOpenerStepInside(v, s, t, o, e, sc, tc);
    } else if s[sc.pos] == '$' && FindTagEnd(Peek(s, sc.pos + 1, TagWindow)).Some? {
      TagStepInside(v, s, t, o, e, sc, tc);
    } else if s[sc.pos] == '$' {
      NoTagStepInside(v, s, t, o, e, sc, tc);
    } else {
      PlainStepInside(v, s, t, o, e, sc, tc);
    }
  }

  lemma StepInsideBlockComment(v: Variant, s: string, t: string, o: nat, e: nat, sc: Scan, tc: Scan)
    requires InStep(s, t, o, e, sc, tc) && sc.region == BlockComment && Step(v, s, sc).pos <= e
    ensures var r := Step(v, s, sc); Step(v, t, tc) == Scan(r.pos - o, r.region, tc.start, tc.cut)
  {
    BlockDelimitersInside(s, t, o, e, sc.pos);
    StepInBlockComment(v, s, sc);
    StepInBlockComment(v, t, tc);
  }

  lemma StepInsideDollarQuoted(v: Variant, s: string, t: string, o: nat, e: nat, sc: Scan, tc: Scan)
    requires InStep(s, t, o, e, sc, tc) && sc.region.DollarQuoted? && Step(v, s, sc).pos <= e
    ensures var r := Step(v, s, sc); Step(v, t, tc) == Scan(r.pos - o, r.region, tc.start, tc.cut)
  {
    DollarCloseInside(s, t, o, e, sc.pos, sc.region.tag);
    StepInDollarQuoted(v, s, sc);
    StepInDollarQuoted(v, t, tc);
  }

  lemma StepInsideOther(v: Variant, s: string, t: string, o: nat, e: nat, sc: Scan, tc: Scan)
    requires InStep(s, t, o, e, sc, tc)
    requires sc.region == LineComment || sc.region == SingleQuoted || sc.region == DoubleQuoted
    ensures var r := Step(v, s, sc); Step(v, t, tc) == Scan(r.pos - o, r.region, tc.start, tc.cut)
  {
    assert t[tc.pos] == s[sc.pos];
    if sc.region == LineComment {
      StepInLineComment(v, s, sc);
      StepInLineComment(v, t, tc);
    } else {
      StepPlainOrQuote(v, s, sc);
      StepPlainOrQuote(v, t, tc);
    }
  }

  /** One step of the statement's own scan mirrors the script's step, but for Go's final `--`, after which nothing can cut. */
  lemma StepInside(v: Variant, s: string, t: string, o: nat, e: nat, sc: Scan, tc: Scan)
    requires InStep(s, t, o, e, sc, tc) && Step(v, s, sc).pos <= e
    ensures var r := Step(v, s, sc);
      || Step(v, t, tc) == Scan(r.pos - o, r.region, tc.start, tc.cut)
      || forall j :: tc.pos <= j < |t| ==> t[j] != ';'
  {
    match sc.region
    case Normal => StepInsideNormal(v, s, t, o, e, sc, tc);
    case BlockComment => StepInsideBlockComment(v, s, t, o, e, sc, tc);
    case DollarQuoted(_) => StepInsideDollarQuoted(v, s, t, o, e, sc, tc);
    case _ => StepInsideOther(v, s, t, o, e, sc, tc);
  }

  // ---- the simulation -----------------------------------------------------------

  /** The script's step from inside the statement stays inside it, and the rest stays quiet. */
  lemma QuietStepInside(v: Variant, s: string, e: nat, b: nat, sc: Scan)
    requires e <= b <= |s| && ValidScan(s, sc) && sc.pos < e && Quiet(v, s, sc, b)
    requires forall j :: e <= j < b ==> IsSpace(v, s[j])
    ensures !IsBoundary(s, sc) && Step(v, s, sc).pos <= e && Quiet(v, s, Step(v, s, sc), b)
  {
    LongStepEndsOnDelimiter(v, s, sc);
  }

  lemma SimulateStep(v: Variant, s: string, t: string, o: nat, e: nat, b: nat, sc: Scan, tc: Scan)
    requires o <= e <= b <= |s| && t == s[o..e]
    requires ValidScan(s, sc) && o <= sc.pos < e && Quiet(v, s, sc, b)
    requires forall j :: e <= j < b ==> IsSpace(v, s[j])
    requires ValidScan(t, tc) && tc.pos == sc.pos - o && tc.region == sc.region
    ensures var r := Step(v, s, sc);
      && r.pos <= e && Quiet(v, s, r, b)
      && (|| Step(v, t, tc) == Scan(r.pos - o, r.region, tc.start, tc.cut)
          || forall j :: tc.pos <= j < |t| ==> t[j] != ';')
  {
    QuietStepInside(v, s, e, b, sc);
    StepInside(v, s, t, o, e, sc, tc);
  }

  /**
    If the script's scan from `sc` is quiet up to `b`, and only whitespace lies between
    the statement's end `e` and `b`, then the statement `t == s[o..e]`, scanned from the
    matching point, cuts nothing either.
   */
  lemma {:induction false} Simulate(v: Variant, s: string, t: string, o: nat, e: nat, b: nat, sc: Scan, tc: Scan)
    requires o <= e <= b <= |s| && t == s[o..e]
    requires ValidScan(s, sc) && o <= sc.pos <= e && Quiet(v, s, sc, b)
    requires forall j :: e <= j < b ==> IsSpace(v, s[j])
    requires ValidScan(t, tc) && tc.pos == sc.pos - o && tc.region == sc.region
    ensures Run(v, t, tc).cut == tc.cut && Run(v, t, tc).start == tc.start
    decreases e - sc.pos
  {
    if sc.pos < e {
      var r := Step(v, s, sc);
      SimulateStep(v, s, t, o, e, b, sc, tc);
      RunStep(v, t, tc);
      if Step(v, t, tc) == Scan(r.pos - o, r.region, tc.start, tc.cut) {
        Simulate(v, s, t, o, e, b, r, Step(v, t, tc));
      } else {
        NoSemicolonRun(v, t, tc);
      }
    }
  }

  // ---- statements re-split ------------------------------------------------------

  /** Splitting the trim of `x` again gives it back, unless that trim is empty. */
  predicate Reparses(v: Variant, x: string)
  {
    Trim(v, x) == [] || Split(v, Trim(v, x)) == [Trim(v, x)]
  }

  lemma UncutSegments(v: Variant, t: string)
    requires Run(v, t, Start).cut == [] && Run(v, t, Start).start == 0
    ensures Segments(v, t) == [t]
  {
    var r := Run(v, t, Start);
    assert Segments(v, t) == r.cut + [t[r.start..r.pos]];
    assert t[0..|t|] == t;
  }

  lemma EmitOne(v: Variant, t: string)
    requires t != [] && IsTrimmed(v, t)
    ensures Emit(v, [t]) == [t]
  {
    TrimOfTrimmed(v, t);
    assert Emit(v, [t]) == Emit(v, []) + [t];
  }

  /** Where the trim of the stretch `s[a..b]` lies in the script, with only whitespace around it. */
  lemma TrimInside(v: Variant, s: string, a: nat, b: nat)
    requires a <= b <= |s|
    ensures var x, ts, te := s[a..b], TrimStart(v, s[a..b]), TrimEnd(v, s[a..b]);
      && ts <= te <= |x| && Trim(v, x) == s[a + ts..a + te]
      && (forall j :: a <= j < a + ts ==> IsSpace(v, s[j]))
      && (forall j :: a + te <= j < b ==> IsSpace(v, s[j]))
  {
    var x := s[a..b];
    TrimDropsOnlySpace(v, x);
    var ts, te := TrimStart(v, x), TrimEnd(v, x);
    SliceInside(s, x, a, b, ts, te);
    forall j | a <= j < a + ts
      ensures IsSpace(v, s[j])
    {
      assert s[j] == x[j - a];
    }
    forall j | a + te <= j < b
      ensures IsSpace(v, s[j])
    {
      assert s[j] == x[j - a];
    }
  }

  /** The trim of a stretch the script's scan crosses quietly from `Normal`, scanned on its own, cuts nothing. */
  lemma QuietStretchUncut(v: Variant, s: string, sc: Scan, b: nat)
    requires ValidScan(s, sc) && sc.region == Normal && sc.pos <= b <= |s| && Quiet(v, s, sc, b)
    ensures var t := Trim(v, s[sc.pos..b]); Run(v, t, Start).cut == [] && Run(v, t, Start).start == 0
  {
    var a, x := sc.pos, s[sc.pos..b];
    TrimInside(v, s, a, b);
    var ts, te := TrimStart(v, x), TrimEnd(v, x);
    QuietSkipsSpace(v, s, sc, a + ts, b);
    Simulate(v, s, Trim(v, x), a + ts, a + te, b, Scan(a + ts, Normal, sc.start, sc.cut), Start);
  }

  /** A stretch the script's scan crosses quietly from `Normal` re-splits to its own trim. */
  lemma QuietStretchReparses(v: Variant, s: string, sc: Scan, b: nat)
    requires ValidScan(s, sc) && sc.region == Normal && sc.pos <= b <= |s| && Quiet(v, s, sc, b)
    ensures Reparses(v, s[sc.pos..b])
  {
    var t := Trim(v, s[sc.pos..b]);
    if t != [] {
      QuietStretchUncut(v, s, sc, b);
      UncutSegments(v, t);
      EmitOne(v, t);
    }
  }

  /** Every raw buffer of a scan begun at a statement's start re-splits to its own trim. */
  lemma {:induction false} PiecesReparse(v: Variant, s: string, sc: Scan)
    requires ValidScan(s, sc) && sc.region == Normal && sc.start == sc.pos
    requires forall k :: 0 <= k < |sc.cut| ==> Reparses(v, sc.cut[k])
    ensures var ps := Pieces(s, Run(v, s, sc)); forall k :: 0 <= k < |ps| ==> Reparses(v, ps[k])
    decreases |s| - sc.pos
  {
    var r := ToBoundary(v, s, sc);
    ToBoundaryQuiet(v, s, sc);
    QuietStretchReparses(v, s, sc, r.pos);
    if r.pos < |s| {
      StepAtBoundary(v, s, r);
      RunStep(v, s, r);
      PiecesReparse(v, s, Step(v, s, r));
    }
  }

  lemma {:induction false} EmitReparses(v: Variant, bufs: seq<string>)
    requires forall k :: 0 <= k < |bufs| ==> Reparses(v, bufs[k])
    ensures forall t :: t in Emit(v, bufs) ==> Split(v, t) == [t]
  {
    if bufs != [] {
      EmitReparses(v, bufs[..|bufs| - 1]);
      assert Reparses(v, bufs[|bufs| - 1]);
    }
  }

  /**
    Idempotence: each statement a version returns, split again by that version, is its
    one and only statement.
   */
  lemma SplitIdempotent(v: Variant, s: string)
    ensures forall t :: t in Split(v, s) ==> Split(v, t) == [t]
  {
    PiecesReparse(v, s, Start);
    assert Segments(v, s) == Pieces(s, Run(v, s, Start));
    EmitReparses(v, Segments(v, s));
  }
}
