/**
  The SQL script splitter, `splitSQLStatements`, in its two implementations (main.go and
  src/main/java/com/example/Main.java).

  The specification is a state machine over regions (`Region`): one `Step` reads the
  character at `pos` plus a bounded lookahead, appends what it reads to the current
  buffer, or, for a `;` read in the `Normal` region, cuts the buffer off as a finished
  raw statement. `Run` steps to the end of the input. The method `SplitSQLStatements`
  is the source's loop over four booleans and a tag string, proved equal to `Split`.
 */
module Splitter {
  import opened Wrappers
  import opened Text

  /** The two implementations. They differ in the line-comment opener and in the trim. */
  datatype Variant = Go | Java

  // ---- trimming and emitting --------------------------------------------------

  /**
    Whitespace for the trim of each emitted statement: Go's `strings.TrimSpace` uses
    `unicode.IsSpace` (tab, newline, vertical tab, form feed, carriage return, space,
    U+0085, U+00A0 and the other Unicode White_Space characters); Java's `String.trim`
    drops every character up to U+0020.
   */
  predicate IsSpace(v: Variant, c: char)
  {
    match v
    case Go =>
      || c == ' ' || '\t' <= c <= '\r' || c == '\U{85}' || c == '\U{A0}' || c == '\U{1680}'
      || '\U{2000}' <= c <= '\U{200A}' || c == '\U{2028}' || c == '\U{2029}' || c == '\U{202F}'
      || c == '\U{205F}' || c == '\U{3000}'
    case Java => c <= ' '
  }

  /** The index of the first character at or after `i` that is not whitespace, or `|x|`. */
  function SkipSpaces(v: Variant, x: string, i: nat): (j: nat)
    requires i <= |x|
    ensures i <= j <= |x| && (j < |x| ==> !IsSpace(v, x[j]))
    decreases |x| - i
  {
    if i < |x| && IsSpace(v, x[i]) then SkipSpaces(v, x, i + 1) else i
  }

  /** The index just past the last character before `j`, and not before `a`, that is not whitespace. */
  function BackSpaces(v: Variant, x: string, a: nat, j: nat): (e: nat)
    requires a <= j <= |x|
    ensures a <= e <= j && (a < e ==> !IsSpace(v, x[e - 1]))
  {
    if a < j && IsSpace(v, x[j - 1]) then BackSpaces(v, x, a, j - 1) else j
  }

  predicate IsTrimmed(v: Variant, x: string)
  {
    x == [] || (!IsSpace(v, x[0]) && !IsSpace(v, x[|x| - 1]))
  }

  /** Where the trim of `x` begins and ends. */
  function TrimStart(v: Variant, x: string): nat
  {
    SkipSpaces(v, x, 0)
  }

  function TrimEnd(v: Variant, x: string): nat
  {
    BackSpaces(v, x, SkipSpaces(v, x, 0), |x|)
  }

  /** `strings.TrimSpace` / `String.trim`: the slice between the leading and the trailing whitespace. */
  function Trim(v: Variant, x: string): (r: string)
    ensures IsTrimmed(v, r)
  {
    x[TrimStart(v, x)..TrimEnd(v, x)]
  }

  lemma {:induction false} SkipSpacesSkipsSpaces(v: Variant, x: string, i: nat)
    requires i <= |x|
    ensures forall k :: i <= k < SkipSpaces(v, x, i) ==> IsSpace(v, x[k])
    decreases |x| - i
  {
    if i < |x| && IsSpace(v, x[i]) {
      SkipSpacesSkipsSpaces(v, x, i + 1);
    }
  }

  lemma {:induction false} BackSpacesSkipsSpaces(v: Variant, x: string, a: nat, j: nat)
    requires a <= j <= |x|
    ensures forall k :: BackSpaces(v, x, a, j) <= k < j ==> IsSpace(v, x[k])
  {
    if a < j && IsSpace(v, x[j - 1]) {
      BackSpacesSkipsSpaces(v, x, a, j - 1);
    }
  }

  /**
    What the trim drops, before and after its slice, is whitespace; the slice itself
    starts and ends with a character that is not.
   */
  lemma TrimDropsOnlySpace(v: Variant, x: string)
    ensures TrimStart(v, x) <= TrimEnd(v, x) <= |x|
    ensures forall k :: 0 <= k < TrimStart(v, x) ==> IsSpace(v, x[k])
    ensures forall k :: TrimEnd(v, x) <= k < |x| ==> IsSpace(v, x[k])
  {
    SkipSpacesSkipsSpaces(v, x, 0);
    BackSpacesSkipsSpaces(v, x, SkipSpaces(v, x, 0), |x|);
  }

  /** Trimming leaves a trimmed string as it is. */
  lemma TrimOfTrimmed(v: Variant, x: string)
    requires IsTrimmed(v, x)
    ensures Trim(v, x) == x
  {
    if x != [] {
      assert TrimStart(v, x) == 0;
      assert TrimEnd(v, x) == |x|;
    }
  }

  /**
    The statements kept from a sequence of raw buffers: each one trimmed, the empty
    ones dropped, in order.
   */
  function Emit(v: Variant, bufs: seq<string>): (r: seq<string>)
    ensures |r| <= |bufs|
    ensures forall k :: 0 <= k < |r| ==> r[k] != [] && IsTrimmed(v, r[k])
  {
    if bufs == [] then []
    else
      var t := Trim(v, bufs[|bufs| - 1]);
      Emit(v, bufs[..|bufs| - 1]) + (if t == [] then [] else [t])
  }

  // ---- the character source ---------------------------------------------------

  function Min(a: int, b: int): int
  {
    if a < b then a else b
  }

  /**
    `next(n)` (Go) / `peek(reader, n)` (Java): the next `n` unread characters, fewer at
    the end of the input, none for `n <= 0`; nothing is consumed.
   */
  function Peek(s: string, pos: nat, n: int): (r: string)
    requires pos <= |s|
    ensures |r| == if n <= 0 then 0 else Min(n, |s| - pos)
    ensures r == s[pos..pos + |r|]
  {
    if n <= 0 then [] else s[pos..Min(pos + n, |s|)]
  }

  // ---- regions and dollar tags ------------------------------------------------

  /** Which construct owns the scan. Exactly one holds at every position. */
  datatype Region =
    | Normal
    | LineComment
    | BlockComment
    | SingleQuoted
    | DoubleQuoted
    | DollarQuoted(tag: string)

  /** How many characters after a `$` are searched for the `$` that ends a tag. */
  const TagWindow: nat := 64

  /** The characters that abort dollar-tag detection. */
  predicate IsTagBreak(c: char)
  {
    c == ' ' || c == '\n' || c == '\t'
  }

  /**
    An opening delimiter as detection produces it: `$`, then at most 63 characters
    that are neither `$` nor a break, then `$`.
   */
  predicate IsDollarTag(tag: string)
  {
    && 2 <= |tag| <= TagWindow + 1
    && tag[0] == '$' && tag[|tag| - 1] == '$'
    && forall k :: 0 < k < |tag| - 1 ==> tag[k] != '$' && !IsTagBreak(tag[k])
  }

  predicate ValidRegion(r: Region)
  {
    r.DollarQuoted? ==> IsDollarTag(r.tag)
  }

  /** In the lookahead `p` after a `$`, index `k` holds the first `$`, and no break precedes it. */
  predicate TagEndsAt(p: string, k: int)
  {
    0 <= k < |p| && p[k] == '$' && forall j :: 0 <= j < k ==> p[j] != '$' && !IsTagBreak(p[j])
  }

  function FindTagEndFrom(p: string, i: nat): (r: Option<nat>)
    requires i <= |p|
    requires forall j :: 0 <= j < i ==> p[j] != '$' && !IsTagBreak(p[j])
    ensures r.Some? ==> TagEndsAt(p, r.value)
    ensures r.None? ==> forall k :: !TagEndsAt(p, k)
    decreases |p| - i
  {
    if i == |p| then None
    else if p[i] == '$' then Some(i)
    else if IsTagBreak(p[i]) then None
    else FindTagEndFrom(p, i + 1)
  }

  /**
    Dollar-tag detection on the lookahead after a `$`: the index of the closing `$`
    when one comes before any break, `None` otherwise.
   */
  function FindTagEnd(p: string): (r: Option<nat>)
    ensures r.Some? ==> TagEndsAt(p, r.value)
    ensures r.None? ==> forall k :: !TagEndsAt(p, k)
  {
    FindTagEndFrom(p, 0)
  }

  // ---- one step of the scanner ------------------------------------------------

  /**
    The scanner between two reads: the index `pos` of the next character, the active
    region, the index `start` at which the statement being scanned began, and the raw
    buffers already cut off at boundaries, in order. The source's builder holds exactly
    `s[start..pos]`: every character read since the last boundary.
   */
  datatype Scan = Scan(pos: nat, region: Region, start: nat, cut: seq<string>)

  const Start: Scan := Scan(0, Normal, 0, [])

  predicate ValidScan(s: string, sc: Scan)
  {
    sc.start <= sc.pos <= |s| && ValidRegion(sc.region)
  }

  /** The builder's contents: the text of the statement being scanned. */
  function Buffer(s: string, sc: Scan): string
    requires ValidScan(s, sc)
  {
    s[sc.start..sc.pos]
  }

  lemma SliceConcat(s: string, a: nat, b: nat, c: nat)
    requires a <= b <= c <= |s|
    ensures s[a..b] + s[b..c] == s[a..c]
  {
  }

  lemma SliceAppend(s: string, a: nat, b: nat)
    requires a <= b < |s|
    ensures s[a..b] + [s[b]] == s[a..b + 1]
  {
  }

  /** The line-comment opener at index `i`: the one rule in which the two versions differ. */
  predicate OpensLineComment(v: Variant, s: string, i: nat)
    requires i < |s|
  {
    s[i] == '-' &&
    match v
    case Go => Peek(s, i + 1, 2) == "- " || Peek(s, i + 1, 2) == "--"
    case Java => StartsWith(Peek(s, i + 1, 1), "-")
  }

  predicate OpensBlockComment(s: string, i: nat)
    requires i < |s|
  {
    s[i] == '/' && StartsWith(Peek(s, i + 1, 1), "*")
  }

  predicate ClosesBlockComment(s: string, i: nat)
    requires i < |s|
  {
    s[i] == '*' && StartsWith(Peek(s, i + 1, 1), "/")
  }

  predicate ClosesDollarQuote(s: string, i: nat, tag: string)
    requires i < |s| && |tag| >= 1
  {
    s[i] == '$' && Peek(s, i + 1, |tag| - 1) == tag[1..]
  }

  /** A successful detection yields a well-formed tag: `$`, the lookahead up to its `$`. */
  lemma DetectedTagIsDollarTag(s: string, i: nat, k: nat)
    requires i < |s| && s[i] == '$' && TagEndsAt(Peek(s, i + 1, TagWindow), k)
    ensures i + k + 2 <= |s| && IsDollarTag(s[i..i + k + 2])
  {
    var p := Peek(s, i + 1, TagWindow);
    var tag := s[i..i + k + 2];
    assert tag == [s[i]] + p[..k + 1];
    forall j | 0 < j < |tag| - 1
      ensures tag[j] != '$' && !IsTagBreak(tag[j])
    {
      assert tag[j] == p[j - 1];
    }
  }


  /** A `;` read in the `Normal` region: the only statement boundary. */
  predicate IsBoundary(s: string, sc: Scan)
    requires sc.pos < |s|
  {
    sc.region == Normal && s[sc.pos] == ';'
  }

  /**
    One iteration of the scanning loop: what it reads, and the region it leaves the scan
    in. Every character read stays in the builder, except a boundary `;`, which cuts the
    builder off instead and starts the next statement after it.
   */
  function Step(v: Variant, s: string, sc: Scan): (r: Scan)
    requires ValidScan(s, sc) && sc.pos < |s|
    ensures ValidScan(s, r) && sc.pos < r.pos
  {
    var i, c := sc.pos, s[sc.pos];
    match sc.region
    case Normal =>
      if OpensLineComment(v, s, i) then
        Scan(i + 2, LineComment, sc.start, sc.cut)
      else if OpensBlockComment(s, i) then
        Scan(i + 2, BlockComment, sc.start, sc.cut)
      else if c == '$' && FindTagEnd(Peek(s, i + 1, TagWindow)).Some? then
        var k := FindTagEnd(Peek(s, i + 1, TagWindow)).value;
        DetectedTagIsDollarTag(s, i, k);
        Scan(i + k + 2, DollarQuoted(s[i..i + k + 2]), sc.start, sc.cut)
      else if c == '\'' then
        Scan(i + 1, SingleQuoted, sc.start, sc.cut)
      else if c == '"' then
        Scan(i + 1, DoubleQuoted, sc.start, sc.cut)
      else if c == ';' then
        Scan(i + 1, Normal, i + 1, sc.cut + [s[sc.start..i]])
      else
        Scan(i + 1, Normal, sc.start, sc.cut)
    case LineComment =>
      Scan(i + 1, if c == '\n' then Normal else LineComment, sc.start, sc.cut)
    case BlockComment =>
      if ClosesBlockComment(s, i) then
        Scan(i + 2, Normal, sc.start, sc.cut)
      else
        Scan(i + 1, BlockComment, sc.start, sc.cut)
    case SingleQuoted =>
      Scan(i + 1, if c == '\'' then Normal else SingleQuoted, sc.start, sc.cut)
    case DoubleQuoted =>
      Scan(i + 1, if c == '"' then Normal else DoubleQuoted, sc.start, sc.cut)
    case DollarQuoted(tag) =>
      if ClosesDollarQuote(s, i, tag) then
        Scan(i + |tag|, Normal, sc.start, sc.cut)
      else
        Scan(i + 1, sc.region, sc.start, sc.cut)
  }

  /**
    The boundary, and only the boundary, cuts the builder off (without its `;`) and
    empties it; every other read appends the characters it reads to the builder.
   */
  lemma StepCutsOnlyAtBoundary(v: Variant, s: string, sc: Scan)
    requires ValidScan(s, sc) && sc.pos < |s|
    ensures var r := Step(v, s, sc);
      && (IsBoundary(s, sc) ==> r.cut == sc.cut + [Buffer(s, sc)] && Buffer(s, r) == [])
      && (!IsBoundary(s, sc) ==> r.cut == sc.cut && Buffer(s, r) == Buffer(s, sc) + s[sc.pos..r.pos])
  {
    var r := Step(v, s, sc);
    if !IsBoundary(s, sc) {
      SliceConcat(s, sc.start, sc.pos, r.pos);
    }
  }

  /** Regions never nest: a construct opens only from `Normal` and closes back to it. */
  lemma StepNeverNests(v: Variant, s: string, sc: Scan)
    requires ValidScan(s, sc) && sc.pos < |s|
    ensures var r := Step(v, s, sc); r.region != sc.region ==> sc.region == Normal || r.region == Normal
  {
  }

  lemma BlockCloseChars(s: string, j: nat)
    requires j < |s| && ClosesBlockComment(s, j)
    ensures j + 2 <= |s| && s[j..j + 2] == [s[j], '/']
  {
    var p := Peek(s, j + 1, 1);
    assert p[0] == '/';
  }

  /**
    Each region closes on its own delimiter only: quotes and line comments read one
    character and close on their quote or newline, a block comment closes exactly on
    its `*` and `/`, and a dollar-quoted body is opened by its tag and closed only by
    the same tag.
   */
  lemma StepClosesOnOwnDelimiter(v: Variant, s: string, sc: Scan)
    requires ValidScan(s, sc) && sc.pos < |s|
    ensures var r := Step(v, s, sc);
      && (sc.region == SingleQuoted ==> r.pos == sc.pos + 1 && (r.region == Normal <==> s[sc.pos] == '\''))
      && (sc.region == DoubleQuoted ==> r.pos == sc.pos + 1 && (r.region == Normal <==> s[sc.pos] == '"'))
      && (sc.region == LineComment ==> r.pos == sc.pos + 1 && (r.region == Normal <==> s[sc.pos] == '\n'))
      && (sc.region == BlockComment && r.region == Normal ==> s[sc.pos..r.pos] == ['*', '/'])
      && (sc.region == Normal && r.region.DollarQuoted? ==> s[sc.pos..r.pos] == r.region.tag)
      && (sc.region.DollarQuoted? && r.region == Normal ==> s[sc.pos..r.pos] == sc.region.tag)
  {
    if sc.region == BlockComment && ClosesBlockComment(s, sc.pos) {
      BlockCloseChars(s, sc.pos);
    }
  }

  /** Scanning from `sc` to the end of the input. */
  function Run(v: Variant, s: string, sc: Scan): (r: Scan)
    requires ValidScan(s, sc)
    ensures r.pos == |s| && ValidScan(s, r)
    decreases |s| - sc.pos
  {
    if sc.pos == |s| then sc else Run(v, s, Step(v, s, sc))
  }

  /** The raw buffers of a scan: those cut off at boundaries, then what the builder holds. */
  function Pieces(s: string, sc: Scan): seq<string>
    requires ValidScan(s, sc)
  {
    sc.cut + [Buffer(s, sc)]
  }

  /** The raw buffers of the whole script, at the end of the input. */
  function Segments(v: Variant, s: string): seq<string>
  {
    Pieces(s, Run(v, s, Start))
  }

  /** The statements `splitSQLStatements` returns for the script `s`. */
  function Split(v: Variant, s: string): seq<string>
  {
    Emit(v, Segments(v, s))
  }

  // ---- the source's loop ------------------------------------------------------

  function Count(b: bool): nat
  {
    if b then 1 else 0
  }

  /** At most one of the source's region flags is set. */
  predicate Exclusive(inSingle: bool, inDouble: bool, inLine: bool, inBlock: bool, dollarTag: string)
  {
    Count(inSingle) + Count(inDouble) + Count(inLine) + Count(inBlock) + Count(dollarTag != []) <= 1
  }

  /**
    The source's four booleans and `dollarTag` stand for the region `r`: each flag is set
    exactly when its region is active, and `dollarTag` holds the tag of an open
    dollar-quoted body and is empty otherwise.
   */
  predicate Encodes(r: Region, inSingle: bool, inDouble: bool, inLine: bool, inBlock: bool, dollarTag: string)
  {
    && inSingle == (r == SingleQuoted)
    && inDouble == (r == DoubleQuoted)
    && inLine == (r == LineComment)
    && inBlock == (r == BlockComment)
    && dollarTag == (if r.DollarQuoted? then r.tag else [])
  }

  /** Flags that encode a region exclude each other: at most one region is active. */
  lemma EncodedFlagsExclusive(r: Region, inSingle: bool, inDouble: bool, inLine: bool, inBlock: bool, dollarTag: string)
    requires ValidRegion(r)
    requires Encodes(r, inSingle, inDouble, inLine, inBlock, dollarTag)
    ensures Exclusive(inSingle, inDouble, inLine, inBlock, dollarTag)
    ensures dollarTag != [] <==> r.DollarQuoted?
  {
  }

  // One lemma per branch of the loop body: what `Step` does there.

  lemma StepInLineComment(v: Variant, s: string, sc: Scan)
    requires ValidScan(s, sc) && sc.pos < |s| && sc.region == LineComment
    ensures Step(v, s, sc) == Scan(sc.pos + 1, if s[sc.pos] == '\n' then Normal else LineComment, sc.start, sc.cut)
  {
  }

  lemma StepInBlockComment(v: Variant, s: string, sc: Scan)
    requires ValidScan(s, sc) && sc.pos < |s| && sc.region == BlockComment
    ensures ClosesBlockComment(s, sc.pos) ==> sc.pos + 2 <= |s| && Step(v, s, sc) == Scan(sc.pos + 2, Normal, sc.start, sc.cut)
    ensures !ClosesBlockComment(s, sc.pos) ==> Step(v, s, sc) == Scan(sc.pos + 1, BlockComment, sc.start, sc.cut)
  {
  }

  lemma StepInDollarQuoted(v: Variant, s: string, sc: Scan)
    requires ValidScan(s, sc) && sc.pos < |s| && sc.region.DollarQuoted?
    ensures var tag := sc.region.tag;
      && (ClosesDollarQuote(s, sc.pos, tag) ==>
            sc.pos + |tag| <= |s| && Step(v, s, sc) == Scan(sc.pos + |tag|, Normal, sc.start, sc.cut))
      && (!ClosesDollarQuote(s, sc.pos, tag) ==> Step(v, s, sc) == Scan(sc.pos + 1, sc.region, sc.start, sc.cut))
  {
  }

  lemma StepOpensLineComment(v: Variant, s: string, sc: Scan)
    requires ValidScan(s, sc) && sc.pos < |s| && sc.region == Normal
    requires OpensLineComment(v, s, sc.pos)
    ensures sc.pos + 2 <= |s| && Step(v, s, sc) == Scan(sc.pos + 2, LineComment, sc.start, sc.cut)
  {
  }

  lemma StepOpensBlockComment(v: Variant, s: string, sc: Scan)
    requires ValidScan(s, sc) && sc.pos < |s| && sc.region == Normal
    requires !OpensLineComment(v, s, sc.pos) && OpensBlockComment(s, sc.pos)
    ensures sc.pos + 2 <= |s| && Step(v, s, sc) == Scan(sc.pos + 2, BlockComment, sc.start, sc.cut)
  {
  }

  lemma StepAtDollar(v: Variant, s: string, sc: Scan)
    requires ValidScan(s, sc) && sc.pos < |s| && sc.region == Normal
    requires !OpensLineComment(v, s, sc.pos) && !OpensBlockComment(s, sc.pos) && s[sc.pos] == '$'
    ensures match FindTagEnd(Peek(s, sc.pos + 1, TagWindow))
      case Some(k) =>
        Step(v, s, sc) == Scan(sc.pos + k + 2, DollarQuoted(s[sc.pos..sc.pos + k + 2]), sc.start, sc.cut)
      case None =>
        Step(v, s, sc) == Scan(sc.pos + 1, Normal, sc.start, sc.cut)
  {
  }

  /** The region after reading `c` in `Normal` or a quoted region: a quote toggles its own region unless the other one is open. */
  function QuoteToggle(r: Region, c: char): Region
  {
    if c == '\'' && r != DoubleQuoted then (if r == SingleQuoted then Normal else SingleQuoted)
    else if c == '"' && r != SingleQuoted then (if r == DoubleQuoted then Normal else DoubleQuoted)
    else r
  }

  /** Reading one character that opens nothing: a boundary cuts, anything else stays, and quotes toggle. */
  function PlainNext(s: string, sc: Scan): Scan
    requires ValidScan(s, sc) && sc.pos < |s|
  {
    if IsBoundary(s, sc) then Scan(sc.pos + 1, Normal, sc.pos + 1, sc.cut + [s[sc.start..sc.pos]])
    else Scan(sc.pos + 1, QuoteToggle(sc.region, s[sc.pos]), sc.start, sc.cut)
  }

  /** A character that opens no comment and no dollar quote, read outside any comment or dollar-quoted body. */
  lemma StepPlainOrQuote(v: Variant, s: string, sc: Scan)
    requires ValidScan(s, sc) && sc.pos < |s|
    requires sc.region == Normal || sc.region == SingleQuoted || sc.region == DoubleQuoted
    requires sc.region == Normal ==> !OpensLineComment(v, s, sc.pos) && !OpensBlockComment(s, sc.pos)
    requires sc.region == Normal && s[sc.pos] == '$' ==> FindTagEnd(Peek(s, sc.pos + 1, TagWindow)).None?
    ensures Step(v, s, sc) == PlainNext(s, sc)
  {
  }

  /**
    After reading the next `n` characters, which the lookahead has already shown to be
    there, the builder has them appended in order. This is the source's
    `for i := 0; i < n; i++ { sb.WriteRune(reader.ReadRune()) }`.
   */
  method ReadInto(input: string, pos: nat, n: nat, sb: string) returns (pos': nat, sb': string)
    requires pos + n <= |input|
    ensures pos' == pos + n
    ensures sb' == sb + input[pos..pos']
  {
    pos', sb' := pos, sb;
    var i := 0;
    while i < n
      invariant 0 <= i <= n
      invariant pos' == pos + i
      invariant sb' == sb + input[pos..pos']
    {
      var r := input[pos'];
      pos' := pos' + 1;
      sb' := sb' + [r];
      i := i + 1;
    }
  }

  /** Detection finds no tag once it has met a break before any `$`. */
  lemma NoTagEndPastBreak(p: string, i: nat)
    requires i < |p| && IsTagBreak(p[i])
    requires forall j :: 0 <= j < i ==> p[j] != '$' && !IsTagBreak(p[j])
    ensures forall k :: !TagEndsAt(p, k)
  {
  }

  /**
    Dollar-tag detection after a `$` read in the `Normal` region (the `if ch == '$'` block
    of the loop): searches the lookahead for the closing `$`; on success writes the whole
    tag to the builder, consumes it and returns it; otherwise returns "" having consumed
    nothing more.
   */
  method OpenDollarQuote(input: string, pos: nat, sb: string) returns (dollarTag: string, pos': nat, sb': string)
    requires 1 <= pos <= |input| && input[pos - 1] == '$'
    ensures match FindTagEnd(Peek(input, pos, TagWindow))
      case Some(k) =>
        pos' == pos + k + 1 <= |input| && dollarTag == input[pos - 1..pos'] && sb' == sb + dollarTag
      case None =>
        dollarTag == "" && pos' == pos && sb' == sb
  {
    var ch := input[pos - 1];
    dollarTag, pos', sb' := "", pos, sb;
    var peek := Peek(input, pos, TagWindow);
    var tag := "$";
    var i := 0;
    while i < |peek|
      invariant 0 <= i <= |peek|
      invariant tag == "$" + peek[..i]
      invariant forall j :: 0 <= j < i ==> peek[j] != '$' && !IsTagBreak(peek[j])
      invariant dollarTag == "" && sb' == sb && pos' == pos
    {
      var r := peek[i];
      tag := tag + [r];
      if r == '$' {
        assert TagEndsAt(peek, i);
        dollarTag := tag;
        sb' := sb' + [ch];
        pos', sb' := ReadInto(input, pos', |tag| - 1, sb');
        assert dollarTag == input[pos - 1..pos'];
        return;
      }
      if r == ' ' || r == '\n' || r == '\t' {
        NoTagEndPastBreak(peek, i);
        tag := "";
        return;
      }
      i := i + 1;
    }
    assert forall k :: !TagEndsAt(peek, k);
  }

  /** Stepping does not change where the scan ends. */
  lemma RunStep(v: Variant, s: string, sc: Scan)
    requires ValidScan(s, sc) && sc.pos < |s|
    ensures Run(v, s, sc) == Run(v, s, Step(v, s, sc))
  {
  }

  // The loop body, one method per region; each states outright what it reads.

  /** Inside a line comment: the character is kept, and a newline ends the comment. */
  method ReadLineComment(input: string, pos0: nat, sb0: string) returns (pos: nat, sb: string, inLineComment: bool)
    requires pos0 < |input|
    ensures pos == pos0 + 1 && sb == sb0 + input[pos0..pos]
    ensures inLineComment == (input[pos0] != '\n')
  {
    var ch := input[pos0];
    pos := pos0 + 1;
    sb := sb0 + [ch];
    inLineComment := true;
    if ch == '\n' {
      inLineComment := false;
    }
    assert input[pos0..pos] == [ch];
  }

  /** Inside a block comment: the character is kept, and `*` followed by `/` ends the comment with both kept. */
  method ReadBlockComment(input: string, pos0: nat, sb0: string) returns (pos: nat, sb: string, inBlockComment: bool)
    requires pos0 < |input|
    ensures ClosesBlockComment(input, pos0) ==> pos == pos0 + 2 && !inBlockComment
    ensures !ClosesBlockComment(input, pos0) ==> pos == pos0 + 1 && inBlockComment
    ensures pos <= |input| && sb == sb0 + input[pos0..pos]
  {
    var ch := input[pos0];
    pos := pos0 + 1;
    var nextOne := Peek(input, pos, 1);
    sb := sb0 + [ch];
    inBlockComment := true;
    assert input[pos0..pos] == [ch];
    if ch == '*' && StartsWith(nextOne, "/") {
      BlockCloseChars(input, pos0);
      if pos < |input| {
        pos := pos + 1;
        sb := sb + ['/'];
      }
      inBlockComment := false;
    }
  }

  /** Inside a dollar-quoted body: the character is kept, and the body's own tag ends it, kept whole. */
  method ReadDollarBody(input: string, pos0: nat, sb0: string, dollarTag0: string) returns (pos: nat, sb: string, dollarTag: string)
    requires pos0 < |input| && |dollarTag0| >= 1
    ensures ClosesDollarQuote(input, pos0, dollarTag0) ==> pos == pos0 + |dollarTag0| && dollarTag == ""
    ensures !ClosesDollarQuote(input, pos0, dollarTag0) ==> pos == pos0 + 1 && dollarTag == dollarTag0
    ensures pos <= |input| && sb == sb0 + input[pos0..pos]
  {
    var ch := input[pos0];
    pos := pos0 + 1;
    sb := sb0 + [ch];
    dollarTag := dollarTag0;
    assert input[pos0..pos] == [ch];
    if ch == '$' {
      var peek := Peek(input, pos, |dollarTag| - 1);
      if peek == dollarTag[1..] {
        var sb1 := sb;
        pos, sb := ReadInto(input, pos, |dollarTag| - 1, sb);
        SliceConcat(input, pos0, pos0 + 1, pos);
        dollarTag := "";
      }
    }
  }

  /**
    Outside quotes and comments: a comment opener is kept and opens its comment, a
    detected dollar tag is kept and opens its body. Otherwise only the character is
    consumed (not yet kept) and no region opens.
   */
  method ReadOpener(v: Variant, input: string, pos0: nat, sb0: string)
    returns (pos: nat, sb: string, inLineComment: bool, inBlockComment: bool, dollarTag: string)
    requires pos0 < |input|
    ensures OpensLineComment(v, input, pos0) ==>
      pos == pos0 + 2 <= |input| && sb == sb0 + input[pos0..pos] && inLineComment && !inBlockComment && dollarTag == ""
    ensures !OpensLineComment(v, input, pos0) && OpensBlockComment(input, pos0) ==>
      pos == pos0 + 2 <= |input| && sb == sb0 + input[pos0..pos] && !inLineComment && inBlockComment && dollarTag == ""
    ensures !OpensLineComment(v, input, pos0) && !OpensBlockComment(input, pos0) ==>
      !inLineComment && !inBlockComment &&
      if input[pos0] == '$' && FindTagEnd(Peek(input, pos0 + 1, TagWindow)).Some? then
        var k := FindTagEnd(Peek(input, pos0 + 1, TagWindow)).value;
        pos == pos0 + k + 2 <= |input| && dollarTag == input[pos0..pos] && sb == sb0 + dollarTag
      else
        pos == pos0 + 1 && sb == sb0 && dollarTag == ""
  {
    var ch := input[pos0];
    pos := pos0 + 1;
    sb := sb0;
    inLineComment, inBlockComment, dollarTag := false, false, "";
    var nextOne := Peek(input, pos, 1);
    var nextTwo := Peek(input, pos, 2);
    var opensLine := match v
      case Go => ch == '-' && (nextTwo == "- " || nextTwo == "--")
      case Java => ch == '-' && StartsWith(nextOne, "-");
    assert opensLine == OpensLineComment(v, input, pos0);
    if opensLine {
      sb := sb + [ch];
      if pos < |input| {
        var r := input[pos];
        pos := pos + 1;
        sb := sb + [r];
      }
      inLineComment := true;
      assert input[pos0..pos] == [ch, input[pos0 + 1]];
      return;
    }
    if ch == '/' && StartsWith(nextOne, "*") {
      sb := sb + [ch];
      if pos < |input| {
        var r := input[pos];
        pos := pos + 1;
        sb := sb + [r];
      }
      inBlockComment := true;
      assert input[pos0..pos] == [ch, input[pos0 + 1]];
      return;
    }
    if ch == '$' {
      dollarTag, pos, sb := OpenDollarQuote(input, pos, sb);
    }
  }

  /**
    A character that opens nothing: a quote toggles its quoted region unless the other
    quote is open, a `;` outside both quotes ends the statement (its trimmed buffer is
    kept when nonempty), and any other character is kept in the buffer. The ghost
    `region` is the region the two quote flags encode.
   */
  method ReadPlain(v: Variant, ch: char, sb0: string, inSingle0: bool, inDouble0: bool,
                   statements0: seq<string>, ghost region: Region, ghost cut: seq<string>)
    returns (sb: string, inSingle: bool, inDouble: bool, statements: seq<string>)
    requires region == Normal || region == SingleQuoted || region == DoubleQuoted
    requires Encodes(region, inSingle0, inDouble0, false, false, []) && statements0 == Emit(v, cut)
    ensures Encodes(QuoteToggle(region, ch), inSingle, inDouble, false, false, [])
    ensures if ch == ';' && region == Normal then sb == [] && statements == Emit(v, cut + [sb0])
            else sb == sb0 + [ch] && statements == statements0
  {
    sb, inSingle, inDouble, statements := sb0, inSingle0, inDouble0, statements0;
    if ch == '\'' && !inDouble {
      inSingle := !inSingle;
    } else if ch == '"' && !inSingle {
      inDouble := !inDouble;
    }

    if ch == ';' && !inSingle && !inDouble {
      var statement := Trim(v, sb);
      if statement != "" {
        statements := statements + [statement];
      }
      assert Emit(v, cut + [sb0]) == statements by {
        assert (cut + [sb0])[..|cut|] == cut;
      }
      sb := "";
      return;
    }
    sb := sb + [ch];
  }

  /**
    The loop body's first three branches, inside a comment or a dollar-quoted body: the
    region's reader handles the character, with `continue` after it.
   */
  method AdvanceInside(v: Variant, input: string, pos0: nat, sb0: string,
                       inLineComment0: bool, inBlockComment0: bool, dollarTag0: string,
                       ghost region: Region, ghost start: nat, ghost cut: seq<string>)
    returns (pos: nat, sb: string, inLineComment: bool, inBlockComment: bool, dollarTag: string)
    requires start <= pos0 < |input| && ValidRegion(region)
    requires region == LineComment || region == BlockComment || region.DollarQuoted?
    requires Encodes(region, false, false, inLineComment0, inBlockComment0, dollarTag0)
    requires sb0 == input[start..pos0]
    ensures var r := Step(v, input, Scan(pos0, region, start, cut));
      && pos == r.pos && sb == input[r.start..r.pos] && r.cut == cut
      && Encodes(r.region, false, false, inLineComment, inBlockComment, dollarTag)
  {
    ghost var before := Scan(pos0, region, start, cut);
    inLineComment, inBlockComment, dollarTag := inLineComment0, inBlockComment0, dollarTag0;
    if inLineComment {
      StepInLineComment(v, input, before);
      pos, sb, inLineComment := ReadLineComment(input, pos0, sb0);
    } else if inBlockComment {
      StepInBlockComment(v, input, before);
      pos, sb, inBlockComment := ReadBlockComment(input, pos0, sb0);
    } else {
      StepInDollarQuoted(v, input, before);
      pos, sb, dollarTag := ReadDollarBody(input, pos0, sb0, dollarTag0);
    }
    SliceConcat(input, start, pos0, pos);
  }

  /** The loop body's last part: a character that opens nothing, read outside comments and dollar-quoted bodies. */
  method AdvancePlain(v: Variant, input: string, pos0: nat, sb0: string,
                      inSingle0: bool, inDouble0: bool, statements0: seq<string>,
                      ghost region: Region, ghost start: nat, ghost cut: seq<string>)
    returns (sb: string, inSingle: bool, inDouble: bool, statements: seq<string>)
    requires start <= pos0 < |input|
    requires region == Normal || region == SingleQuoted || region == DoubleQuoted
    requires Encodes(region, inSingle0, inDouble0, false, false, [])
    requires sb0 == input[start..pos0] && statements0 == Emit(v, cut)
    ensures var r := PlainNext(input, Scan(pos0, region, start, cut));
      && r.pos == pos0 + 1 && sb == input[r.start..r.pos] && statements == Emit(v, r.cut)
      && Encodes(r.region, inSingle, inDouble, false, false, [])
  {
    ghost var before := Scan(pos0, region, start, cut);
    ghost var r := PlainNext(input, before);
    sb, inSingle, inDouble, statements := ReadPlain(v, input[pos0], sb0, inSingle0, inDouble0, statements0, region, cut);
    if IsBoundary(input, before) {
      assert r == Scan(pos0 + 1, Normal, pos0 + 1, cut + [sb0]);
    } else {
      SliceAppend(input, start, pos0);
      assert r == Scan(pos0 + 1, QuoteToggle(region, input[pos0]), start, cut);
    }
  }

  /**
    The rest of the loop body, outside comments and dollar-quoted bodies: outside quotes
    an opener is tried first (with `continue` when one opens), then the character is
    read as a plain character or quote.
   */
  method AdvanceOutside(v: Variant, input: string, pos0: nat, sb0: string,
                        inSingle0: bool, inDouble0: bool, statements0: seq<string>,
                        ghost region: Region, ghost start: nat, ghost cut: seq<string>)
    returns (pos: nat, sb: string, inSingle: bool, inDouble: bool, inLineComment: bool,
             inBlockComment: bool, dollarTag: string, statements: seq<string>)
    requires start <= pos0 < |input|
    requires region == Normal || region == SingleQuoted || region == DoubleQuoted
    requires Encodes(region, inSingle0, inDouble0, false, false, [])
    requires sb0 == input[start..pos0] && statements0 == Emit(v, cut)
    ensures var r := Step(v, input, Scan(pos0, region, start, cut));
      && pos == r.pos && sb == input[r.start..r.pos] && statements == Emit(v, r.cut)
      && Encodes(r.region, inSingle, inDouble, inLineComment, inBlockComment, dollarTag)
  {
    ghost var before := Scan(pos0, region, start, cut);
    inSingle, inDouble, statements := inSingle0, inDouble0, statements0;
    if !inSingle && !inDouble {
      pos, sb, inLineComment, inBlockComment, dollarTag := ReadOpener(v, input, pos0, sb0);
      if inLineComment {
        StepOpensLineComment(v, input, before);
        SliceConcat(input, start, pos0, pos);
        return;
      }
      if inBlockComment {
        StepOpensBlockComment(v, input, before);
        SliceConcat(input, start, pos0, pos);
        return;
      }
      if dollarTag != "" {
        StepAtDollar(v, input, before);
        SliceConcat(input, start, pos0, pos);
        return;
      }
    }
    pos, inLineComment, inBlockComment, dollarTag := pos0 + 1, false, false, "";
    sb, inSingle, inDouble, statements := AdvancePlain(v, input, pos0, sb0, inSingle0, inDouble0, statements0, region, start, cut);
    StepPlainOrQuote(v, input, before);
  }

  /**
    One pass of the loop body of `splitSQLStatements`, starting at index `pos0` with the
    builder `sb0` and the flags as they stand. The ghost `region` is the region the flags
    encode, `start` the index at which the builder's text began and `cut` the raw buffers
    behind `statements0`.
   */
  method Advance(v: Variant, input: string, pos0: nat, sb0: string,
                 inSingle0: bool, inDouble0: bool, inLineComment0: bool, inBlockComment0: bool,
                 dollarTag0: string, statements0: seq<string>,
                 ghost region: Region, ghost start: nat, ghost cut: seq<string>)
    returns (pos: nat, sb: string, inSingle: bool, inDouble: bool, inLineComment: bool,
             inBlockComment: bool, dollarTag: string, statements: seq<string>)
    requires start <= pos0 < |input| && ValidRegion(region)
    requires Encodes(region, inSingle0, inDouble0, inLineComment0, inBlockComment0, dollarTag0)
    requires sb0 == input[start..pos0] && statements0 == Emit(v, cut)
    ensures var r := Step(v, input, Scan(pos0, region, start, cut));
      && pos == r.pos && sb == input[r.start..r.pos] && statements == Emit(v, r.cut)
      && Encodes(r.region, inSingle, inDouble, inLineComment, inBlockComment, dollarTag)
  {
    if inLineComment0 || inBlockComment0 || dollarTag0 != "" {
      inSingle, inDouble, statements := false, false, statements0;
      pos, sb, inLineComment, inBlockComment, dollarTag :=
        AdvanceInside(v, input, pos0, sb0, inLineComment0, inBlockComment0, dollarTag0, region, start, cut);
    } else {
      pos, sb, inSingle, inDouble, inLineComment, inBlockComment, dollarTag, statements :=
        AdvanceOutside(v, input, pos0, sb0, inSingle0, inDouble0, statements0, region, start, cut);
    }
  }

  /**
    `splitSQLStatements`: reads the script one character at a time, keeping the regions in
    four booleans and `dollarTag`, the current statement in the builder `sb` and the
    result in `statements`. The ghost `region` is the single region the flags stand for,
    `start` the index at which the builder's text began, `cut` the raw buffers cut off so
    far.
   */
  method SplitSQLStatements(v: Variant, input: string) returns (statements: seq<string>)
    ensures statements == Split(v, input)
  {
    statements := [];
    var pos := 0;
    var sb := "";
    var inSingle, inDouble := false, false;
    var inLineComment, inBlockComment := false, false;
    var dollarTag := "";
    ghost var region := Normal;
    ghost var start: nat := 0;
    ghost var cut: seq<string> := [];

    while pos < |input|
      invariant start <= pos <= |input| && ValidRegion(region)
      invariant Encodes(region, inSingle, inDouble, inLineComment, inBlockComment, dollarTag)
      invariant sb == input[start..pos]
      invariant Run(v, input, Scan(pos, region, start, cut)) == Run(v, input, Start)
      invariant statements == Emit(v, cut)
      decreases |input| - pos
    {
      ghost var before := Scan(pos, region, start, cut);
      RunStep(v, input, before);
      ghost var after := Step(v, input, before);
      pos, sb, inSingle, inDouble, inLineComment, inBlockComment, dollarTag, statements :=
        Advance(v, input, pos, sb, inSingle, inDouble, inLineComment, inBlockComment, dollarTag,
                statements, region, start, cut);
      region, start, cut := after.region, after.start, after.cut;
    }

    var statement := Trim(v, sb);
    if statement != "" {
      statements := statements + [statement];
    }
    assert Emit(v, cut + [sb]) == statements by {
      assert (cut + [sb])[..|cut|] == cut;
    }
  }
}
