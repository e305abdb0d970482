/**
  Concrete scripts and the statements `Split` gives for them: the script of the project's unit
  test (src/test/java/com/example/MainTest.java), and inputs that show the rules
  on which the two versions, or intuition, part ways.
 */
module SplitterExamples {
  import opened Splitter
  import opened SplitterProps

  lemma EmitKeep(v: Variant, bufs: seq<string>, b: string, t: string)
    requires Trim(v, b) == t && t != []
    ensures Emit(v, bufs + [b]) == Emit(v, bufs) + [t]
  {
    assert (bufs + [b])[..|bufs|] == bufs;
  }

  lemma EmitDrop(v: Variant, bufs: seq<string>, b: string)
    requires Trim(v, b) == []
    ensures Emit(v, bufs + [b]) == Emit(v, bufs)
  {
    assert (bufs + [b])[..|bufs|] == bufs;
  }

  lemma TrimAfterSpace(v: Variant, b: string)
    requires |b| >= 2 && IsSpace(v, b[0]) && IsTrimmed(v, b[1..])
    ensures Trim(v, b) == b[1..]
  {
    assert !IsSpace(v, b[1]) && !IsSpace(v, b[|b| - 1]) by {
      assert b[1..][0] == b[1] && b[1..][|b| - 2] == b[|b| - 1];
    }
    assert SkipSpaces(v, b, 1) == 1;
    assert TrimStart(v, b) == 1;
    assert TrimEnd(v, b) == |b|;
  }

  lemma TrimOfSpace(v: Variant, c: string)
    requires |c| == 1 && IsSpace(v, c[0])
    ensures Trim(v, c) == []
  {
    assert SkipSpaces(v, c, 1) == 1;
  }

  lemma EmitTrimmedThenSpaced(v: Variant, a: string, b: string)
    requires a != [] && IsTrimmed(v, a)
    requires |b| >= 2 && IsSpace(v, b[0]) && IsTrimmed(v, b[1..])
    ensures Emit(v, [a] + [b]) == [a] + [b[1..]]
  {
    TrimOfTrimmed(v, a);
    EmitKeep(v, [], a, a);
    assert [] + [a] == [a];
    TrimAfterSpace(v, b);
    EmitKeep(v, [a], b, b[1..]);
  }

  /** The script of `shouldSplitStatementsWithSemicolonsInStringsAndComments`, line by line. */
  const Line1: string := "-- keep ; in comment\n"
  const Line2: string := "select ';' as a;\n"
  const Line3: string := "/* block ; comment */\n"
  const Line4a: string := "update users set name = "
  const Line4b: string := "'x;y' where id = 1;\n"

  lemma PeekIs(s: string, pos: nat, t: string)
    requires pos + |t| <= |s| && forall k :: 0 <= k < |t| ==> s[pos + k] == t[k]
    ensures Peek(s, pos, |t|) == t
  {
  }

  /** A character read in `Normal` that opens nothing, with its effect on the run. */
  lemma RunNormalChar(v: Variant, s: string, sc: Scan)
    requires ValidScan(s, sc) && sc.pos < |s| && sc.region == Normal
    requires s[sc.pos] in "';"
    ensures Run(v, s, sc) == Run(v, s,
      if s[sc.pos] == ';' then Scan(sc.pos + 1, Normal, sc.pos + 1, sc.cut + [s[sc.start..sc.pos]])
      else Scan(sc.pos + 1, SingleQuoted, sc.start, sc.cut))
  {
    StepPlainOrQuote(v, s, sc);
    RunStep(v, s, sc);
  }

  predicate IsTestScript(s: string)
  {
    s == Line1 + Line2 + Line3 + Line4a + Line4b
  }

  /**
    The facts about the test script's characters that the scan below uses: where each
    region opens and closes, and that the text in between is plain; one predicate per
    line.
   */
  predicate ShapeLine1(s: string)
    requires |s| == 104
  {
    s[0] == '-' && Peek(s, 1, 2) == "- " && Peek(s, 1, 1) == "-" &&
    (forall m :: 2 <= m < 20 ==> s[m] != '\n') && s[20] == '\n'
  }

  predicate ShapeLine2(s: string)
    requires |s| == 104
  {
    && (forall m :: 21 <= m < 28 ==> IsPlainChar(s[m]))
    && s[28] == '\'' && s[29] != '\'' && s[30] == '\''
    && (forall m :: 31 <= m < 36 ==> IsPlainChar(s[m]))
    && s[35] == 'a' && s[36] == ';'
  }

  predicate ShapeLine3(s: string)
    requires |s| == 104
  {
    && s[37] == '\n' && s[38] == '/' && Peek(s, 39, 1) == "*"
    && (forall m :: 40 <= m < 57 ==> s[m] != '*') && s[57] == '*' && Peek(s, 58, 1) == "/"
  }

  predicate ShapeLine4(s: string)
    requires |s| == 104
  {
    forall m :: 59 <= m < 84 ==> IsPlainChar(s[m])
  }

  predicate ShapeLine4Quote(s: string)
    requires |s| == 104
  {
    s[84] == '\'' && (forall m :: 85 <= m < 88 ==> s[m] != '\'') && s[88] == '\''
  }

  predicate ShapeLine4End(s: string)
    requires |s| == 104
  {
    && (forall m :: 89 <= m < 102 ==> IsPlainChar(s[m]))
    && s[101] == '1' && s[102] == ';' && s[103] == '\n'
  }

  predicate TestScriptShape(s: string)
  {
    |s| == 104 && ShapeLine1(s) && ShapeLine2(s) && ShapeLine3(s) && ShapeLine4(s) && ShapeLine4Quote(s) && ShapeLine4End(s)
  }

  lemma TestScriptLength(s: string)
    requires IsTestScript(s)
    ensures |s| == 104
  {
  }

  lemma ShapeOfLine1(s: string)
    requires IsTestScript(s)
    ensures |s| == 104 && ShapeLine1(s)
  {
    PeekIs(s, 1, "- ");
    PeekIs(s, 1, "-");
  }

  lemma ShapeOfLine2(s: string)
    requires IsTestScript(s)
    ensures |s| == 104 && ShapeLine2(s)
  {
  }

  lemma ShapeOfLine3(s: string)
    requires IsTestScript(s)
    ensures |s| == 104 && ShapeLine3(s)
  {
    PeekIs(s, 39, "*");
    PeekIs(s, 58, "/");
  }

  lemma ShapeOfLine4(s: string)
    requires IsTestScript(s)
    ensures |s| == 104 && ShapeLine4(s)
  {
  }

  lemma ShapeOfLine4Quote(s: string)
    requires IsTestScript(s)
    ensures |s| == 104 && ShapeLine4Quote(s)
  {
  }

  lemma ShapeOfLine4End(s: string)
    requires IsTestScript(s)
    ensures |s| == 104 && ShapeLine4End(s)
  {
  }

  lemma TestScriptTexts(s: string)
    requires IsTestScript(s)
    ensures |s| == 104
    ensures s[0..36] == "-- keep ; in comment\nselect ';' as a"
    ensures s[38..102] == Line3 + Line4a + "'x;y' where id = 1"
  {
  }

  lemma TestScriptLineComment(v: Variant, s: string)
    requires TestScriptShape(s)
    ensures Run(v, s, Start) == Run(v, s, Scan(21, Normal, 0, []))
  {
    StepOpensLineComment(v, s, Start);
    RunStep(v, s, Start);
    RunLineComment(v, s, Scan(2, LineComment, 0, []), 20);
  }

  lemma TestScriptSelect(v: Variant, s: string)
    requires TestScriptShape(s)
    ensures Run(v, s, Scan(21, Normal, 0, [])) == Run(v, s, Scan(37, Normal, 37, [s[0..36]]))
  {
    RunPlain(v, s, Scan(21, Normal, 0, []), 28);
    RunNormalChar(v, s, Scan(28, Normal, 0, []));
    RunQuoted(v, s, Scan(29, SingleQuoted, 0, []), 30);
    RunPlain(v, s, Scan(31, Normal, 0, []), 36);
    RunNormalChar(v, s, Scan(36, Normal, 0, []));
    assert [] + [s[0..36]] == [s[0..36]];
  }

  lemma TestScriptBlockComment(v: Variant, s: string, cut: seq<string>)
    requires TestScriptShape(s)
    ensures Run(v, s, Scan(37, Normal, 37, cut)) == Run(v, s, Scan(59, Normal, 37, cut))
  {
    RunPlain(v, s, Scan(37, Normal, 37, cut), 38);
    StepOpensBlockComment(v, s, Scan(38, Normal, 37, cut));
    RunStep(v, s, Scan(38, Normal, 37, cut));
    RunBlockComment(v, s, Scan(40, BlockComment, 37, cut), 57);
  }

  lemma TestScriptUpdate(v: Variant, s: string, cut: seq<string>)
    requires TestScriptShape(s)
    ensures Run(v, s, Scan(59, Normal, 37, cut)) == Run(v, s, Scan(103, Normal, 103, cut + [s[37..102]]))
  {
    RunPlain(v, s, Scan(59, Normal, 37, cut), 84);
    RunNormalChar(v, s, Scan(84, Normal, 37, cut));
    RunQuoted(v, s, Scan(85, SingleQuoted, 37, cut), 88);
    RunPlain(v, s, Scan(89, Normal, 37, cut), 102);
    RunNormalChar(v, s, Scan(102, Normal, 37, cut));
  }

  lemma TestScriptSegments(v: Variant, s: string)
    requires TestScriptShape(s)
    ensures Segments(v, s) == [s[0..36]] + [s[37..102]] + [s[103..104]]
  {
    TestScriptLineComment(v, s);
    TestScriptSelect(v, s);
    TestScriptBlockComment(v, s, [s[0..36]]);
    TestScriptUpdate(v, s, [s[0..36]]);
    var cut := [s[0..36]] + [s[37..102]];
    RunPlain(v, s, Scan(103, Normal, 103, cut), 104);
  }

  /** A trimmed statement, then one after a leading blank, then a lone blank. */
  lemma EmitThree(v: Variant, a: string, b: string, c: string)
    requires a != [] && IsTrimmed(v, a)
    requires |b| >= 2 && IsSpace(v, b[0]) && IsTrimmed(v, b[1..])
    requires |c| == 1 && IsSpace(v, c[0])
    ensures Emit(v, [a] + [b] + [c]) == [a] + [b[1..]]
  {
    EmitTrimmedThenSpaced(v, a, b);
    TrimOfSpace(v, c);
    EmitDrop(v, [a] + [b], c);
  }

  lemma TestScriptStatements(v: Variant, s: string)
    requires TestScriptShape(s)
    ensures Split(v, s) == [s[0..36]] + [s[38..102]]
  {
    TestScriptSegments(v, s);
    var a, b, c := s[0..36], s[37..102], s[103..104];
    assert b[1..] == s[38..102];
    EmitThree(v, a, b, c);
  }

  /**
    The unit test's script splits, in both versions, into exactly the two statements
    the test expects, each keeping its leading comment: the `;` in the line comment, in
    the quoted literals and in the block comment are not boundaries.
   */
  lemma UnitTestScript(v: Variant, s: string)
    requires IsTestScript(s)
    ensures |Split(v, s)| == 2
    ensures Split(v, s)[0] == "-- keep ; in comment\nselect ';' as a"
    ensures Split(v, s)[1] == Line3 + Line4a + "'x;y' where id = 1"
  {
    ShapeOfLine1(s);
    ShapeOfLine2(s);
    ShapeOfLine3(s);
    ShapeOfLine4(s);
    ShapeOfLine4Quote(s);
    ShapeOfLine4End(s);
    TestScriptTexts(s);
    TestScriptStatements(v, s);
  }

  // ---- where the versions differ ------------------------------------------------

  /** The facts about `--x;y` the two scans below use. */
  predicate DashShape(s: string)
  {
    && |s| == 5 && s[0] == '-' && s[1] == '-' && IsPlainChar(s[2]) && s[3] == ';' && IsPlainChar(s[4])
    && s[2] != '\n' && s[3] != '\n' && s[4] != '\n'
    && !OpensLineComment(Go, s, 0) && !OpensLineComment(Go, s, 1) && OpensLineComment(Java, s, 0)
    && !IsSpace(Go, s[2]) && !IsSpace(Go, s[4]) && !IsSpace(Java, s[4])
  }

  lemma ShapeOfDashDash(s: string)
    requires s == "--x;y"
    ensures DashShape(s)
  {
    PeekIs(s, 1, "-x");
    PeekIs(s, 2, "x;");
    PeekIs(s, 1, "-");
  }

  lemma DashDashGoSegments(s: string)
    requires DashShape(s)
    ensures Segments(Go, s) == [s[0..3]] + [s[4..5]]
  {
    StepPlainOrQuote(Go, s, Start);
    RunStep(Go, s, Start);
    StepPlainOrQuote(Go, s, Scan(1, Normal, 0, []));
    RunStep(Go, s, Scan(1, Normal, 0, []));
    RunPlain(Go, s, Scan(2, Normal, 0, []), 3);
    RunNormalChar(Go, s, Scan(3, Normal, 0, []));
    RunPlain(Go, s, Scan(4, Normal, 4, [] + [s[0..3]]), 5);
    assert [] + [s[0..3]] == [s[0..3]];
  }

  lemma EmitTwoTrimmed(v: Variant, a: string, b: string)
    requires a != [] && IsTrimmed(v, a) && b != [] && IsTrimmed(v, b)
    ensures Emit(v, [a] + [b]) == [a] + [b]
  {
    TrimOfTrimmed(v, a);
    EmitKeep(v, [], a, a);
    assert [] + [a] == [a];
    TrimOfTrimmed(v, b);
    EmitKeep(v, [a], b, b);
  }

  lemma EmitOneTrimmed(v: Variant, a: string)
    requires a != [] && IsTrimmed(v, a)
    ensures Emit(v, [a]) == [a]
  {
    TrimOfTrimmed(v, a);
    EmitKeep(v, [], a, a);
    assert [] + [a] == [a];
  }

  lemma DashDashGo(s: string)
    requires DashShape(s)
    ensures Split(Go, s) == [s[0..3]] + [s[4..5]]
  {
    DashDashGoSegments(s);
    EmitTwoTrimmed(Go, s[0..3], s[4..5]);
  }

  lemma DashDashJavaSegments(s: string)
    requires DashShape(s)
    ensures Segments(Java, s) == [s]
  {
    StepOpensLineComment(Java, s, Start);
    RunStep(Java, s, Start);
    RunLineCommentToEnd(Java, s, Scan(2, LineComment, 0, []));
    assert s[0..5] == s;
  }

  lemma DashDashJava(s: string)
    requires DashShape(s)
    ensures Split(Java, s) == [s]
  {
    DashDashJavaSegments(s);
    EmitOneTrimmed(Java, s);
  }

  lemma DashTexts(s: string)
    requires s == "--x;y"
    ensures [s[0..3]] + [s[4..5]] == ["--x", "y"] && [s] == ["--x;y"]
  {
    assert s[0..3] == "--x" && s[4..5] == "y";
  }

  /**
    `--x;y`: Go opens a line comment only on `--` followed by `-` or a space, so the
    `;` is a boundary; Java opens one on any `--`, so the whole input is one comment.
   */
  lemma DashDashDiffers(s: string)
    requires s == "--x;y"
    ensures Split(Go, s) == ["--x", "y"]
    ensures Split(Java, s) == ["--x;y"]
  {
    ShapeOfDashDash(s);
    DashDashGo(s);
    DashDashJava(s);
    DashTexts(s);
  }

  // The facts about the unterminated-comment script that the scan below uses.
  predicate OpenCommentShape(v: Variant, s: string)
  {
    && |s| == 25
    && (forall m :: 0 <= m < 8 ==> IsPlainChar(s[m])) && s[8] == ';' && IsPlainChar(s[9])
    && !OpensLineComment(v, s, 10) && OpensBlockComment(s, 10)
    && (forall m :: 12 <= m < 25 ==> s[m] != '*')
    && IsTrimmed(v, s[0..8]) && IsSpace(v, s[9]) && IsTrimmed(v, s[10..])
  }

  lemma ShapeOfOpenCommentScan(v: Variant, s: string)
    requires s == "select 1; /* never closed"
    ensures |s| == 25
    ensures (forall m :: 0 <= m < 8 ==> IsPlainChar(s[m])) && s[8] == ';' && IsPlainChar(s[9])
    ensures !OpensLineComment(v, s, 10) && OpensBlockComment(s, 10)
    ensures forall m :: 12 <= m < 25 ==> s[m] != '*'
  {
    PeekIs(s, 11, "*");
  }

  lemma ShapeOfOpenCommentTrim(v: Variant, s: string)
    requires s == "select 1; /* never closed"
    ensures |s| == 25 && IsTrimmed(v, s[0..8]) && IsSpace(v, s[9]) && IsTrimmed(v, s[10..])
  {
    assert s[0..8] == "select 1" && s[10..] == "/* never closed";
  }

  lemma ShapeOfOpenComment(v: Variant, s: string)
    requires s == "select 1; /* never closed"
    ensures OpenCommentShape(v, s)
  {
    ShapeOfOpenCommentScan(v, s);
    ShapeOfOpenCommentTrim(v, s);
  }

  lemma OpenCommentFirst(v: Variant, s: string)
    requires OpenCommentShape(v, s)
    ensures Run(v, s, Start) == Run(v, s, Scan(9, Normal, 9, [s[0..8]]))
  {
    RunPlain(v, s, Start, 8);
    RunNormalChar(v, s, Scan(8, Normal, 0, []));
    assert [] + [s[0..8]] == [s[0..8]];
  }

  lemma OpenCommentRest(v: Variant, s: string, cut: seq<string>)
    requires OpenCommentShape(v, s)
    ensures Run(v, s, Scan(9, Normal, 9, cut)) == Scan(|s|, BlockComment, 9, cut)
  {
    RunPlain(v, s, Scan(9, Normal, 9, cut), 10);
    StepOpensBlockComment(v, s, Scan(10, Normal, 9, cut));
    RunStep(v, s, Scan(10, Normal, 9, cut));
    RunBlockCommentToEnd(v, s, Scan(12, BlockComment, 9, cut));
  }

  lemma OpenCommentSegments(v: Variant, s: string)
    requires OpenCommentShape(v, s)
    ensures Segments(v, s) == [s[0..8]] + [s[9..]]
  {
    OpenCommentFirst(v, s);
    OpenCommentRest(v, s, [s[0..8]]);
    assert s[9..|s|] == s[9..];
  }

  lemma OpenCommentSplit(v: Variant, s: string)
    requires OpenCommentShape(v, s)
    ensures Split(v, s) == [s[0..8]] + [s[10..]]
  {
    OpenCommentSegments(v, s);
    assert s[9..][1..] == s[10..];
    EmitTrimmedThenSpaced(v, s[0..8], s[9..]);
  }

  lemma OpenCommentTexts(s: string)
    requires s == "select 1; /* never closed"
    ensures [s[0..8]] + [s[10..]] == ["select 1", "/* never closed"]
  {
    assert s[0..8] == "select 1" && s[10..] == "/* never closed";
  }

  /**
    A block comment that is never closed does not raise an error: the text after the
    last boundary is flushed as the final statement, comment and all.
   */
  lemma UnterminatedBlockComment(v: Variant, s: string)
    requires s == "select 1; /* never closed"
    ensures Split(v, s) == ["select 1", "/* never closed"]
  {
    ShapeOfOpenComment(v, s);
    OpenCommentSplit(v, s);
    OpenCommentTexts(s);
  }
}
