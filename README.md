# thin-cross-db-client in Dafny

thin-cross-db-client is a command-line client with two implementations, one in Go
(`main.go`) and one in Java (`src/main/java/com/example/Main.java`). It reads a SQL
script, splits it into statements, runs them against Oracle, SQL Server or PostgreSQL,
and prints result sets as text tables. This project models the client's logic and proves
properties of it. Database access and I/O are not part of the model.

- **The statement splitter** (`splitSQLStatements`, both versions): `splitter.dfy`.
  - The specification is a state machine: one `Step` per loop iteration over the regions
    `Normal`, `LineComment`, `BlockComment`, `SingleQuoted`, `DoubleQuoted` and
    `DollarQuoted(tag)`.
  - `Run` steps to the end of the input. A `;` read in `Normal` is the only statement
    boundary.
  - `Segments` is the list of raw buffers. `Split` trims each one and drops the empty
    ones.
  - The method `SplitSQLStatements` is the source's loop, with four booleans, a tag
    string and a string builder. It is proved equal to `Split`. Its loop invariant says
    the flags encode exactly one region, so at most one flag is ever set.
  - A `Variant` parameter carries the two points where the versions differ. Go opens a
    line comment on `-` followed by `- ` or `--`; Java opens one on any `--`. Go trims
    with `unicode.IsSpace`; Java trims every character up to U+0020.
- **Properties of the splitter** (`splitter_props.dfy`):
  - Each region runs whole to its own closing delimiter, so a `;` inside it never
    splits.
  - No character is lost: the segments joined with `;` give back the script.
  - On a script in which no index opens a quote, a comment or a dollar-quoted body, the
    split agrees with a plain split at every `;`.
- **Idempotence** (`splitter_reparse.dfy`): every statement a version returns, split
  again by the same version, comes back as its only statement.
  - The proof simulates the statement's own scan against the scan of the whole script.
  - The two differ in one case only. That case is Go's `--` at the very end of a
    statement, followed in the script by a space; after it nothing can cut.
- **Worked examples** (`splitter_examples.dfy`):
  - the unit test's script;
  - where the two versions disagree (`--x;y`);
  - a block comment that is never closed.
- **Configuration** (`config.dfy`):
  - engines, default ports and driver names;
  - Go's `config.validate`, as a class whose `Validate` method may update `port`;
  - Java's `Config.fromArgs`, a loop over the arguments proved equal to a recursive
    parse, then the settling of defaults and errors;
  - `buildJdbcUrl`;
  - lemmas that relate the two versions' checks.
- **The JDBC URL unit test** (`config_examples.dfy`): its two command lines give exactly
  the expected URLs.
  - The file's helper lemmas without rows in "## Model" (`ParseFlag`,
    `FourPairs`, `FivePairs`, `FlagKey`, `EnginePostgres`, `EngineSqlServer`,
    `PortTexts`, `PortParsed`, `PostgresText`, `SqlServerText`, `PostgresParams`,
    `SqlServerParams`) only build these two examples. They model no source lines of
    their own.
- **Result tables** (`table.dfy`): `printTable`, `printSeparator` and `printRow`.
  - Column widths are computed by the source's nested loops. They are proved to be the
    maximum of the header and cell lengths.
  - Lines are built by loops and proved equal to their specification functions.
  - Lemmas show that the `+` of separators and the `|` of rows line up, that each cell
    sits at its column's offset, and that all lines of a full table have one length.
- **Shared text helpers** (`text.dfy`):
  - ASCII lower-casing;
  - decimal formatting of integers;
  - `Integer.parseInt`, with its sign and 32-bit range rules.

Standard SQL, and the Java version, open a line comment on any `--`. The Go code opens
one only when the two characters after the first `-` are `- ` or `--`.
`SplitterExamples.DashDashDiffers` shows the consequence.

## Model

| member | source | states |
|---|---|---|
| Text.Repeat | main.go:255 | `strings.Repeat` of one character: the result has length `n` and consists only of that character |
| Text.ToLower | src/main/java/com/example/Main.java:153 | lower-casing keeps the length and maps each character on its own |
| Text.ToLowerIdempotent | main.go:106 | lower-casing twice is lower-casing once |
| Text.NatToString | src/main/java/com/example/Main.java:154-156 | `%d` of a natural: nonempty, all digits, no leading zero |
| Text.NatToStringValue | src/main/java/com/example/Main.java:154-156 | the digits `%d` prints denote the number |
| Text.IntToString | src/main/java/com/example/Main.java:154-156 | `%d` of an integer starts with `-` exactly when the number is negative |
| Text.ParseInt | src/main/java/com/example/Main.java:340 | `Integer.parseInt`: a value is returned only when it lies in the 32-bit range |
| Text.ParseIntOfIntToString | src/main/java/com/example/Main.java:340 | round trip: parsing the decimal text of any 32-bit integer gives that integer back |
| Text.ParseIntRejectsNonNumerals | src/main/java/com/example/Main.java:339-343 | empty text, and text that is not an optional sign followed by digits, is a `NumberFormatException` |
| Splitter.SkipSpaces | main.go:382 | the index of the first non-whitespace character at or after `i`, or the end |
| Splitter.BackSpaces | main.go:382 | the index just past the last non-whitespace character before `j` and not before `a` |
| Splitter.SkipSpacesSkipsSpaces | main.go:382 | everything `SkipSpaces` passes over is whitespace |
| Splitter.BackSpacesSkipsSpaces | main.go:392 | everything `BackSpaces` passes over is whitespace |
| Splitter.Trim | main.go:382 | a trimmed statement neither starts nor ends with whitespace |
| Splitter.TrimDropsOnlySpace | src/main/java/com/example/Main.java:260 | the trim drops only whitespace, before and after the slice it keeps |
| Splitter.TrimOfTrimmed | src/main/java/com/example/Main.java:274 | trimming is the identity on trimmed text |
| Splitter.Emit | main.go:382-385 | at most one statement per buffer, each nonempty and trimmed |
| Splitter.Peek | src/main/java/com/example/Main.java:281-290 | `peek(reader, n)`: the next `min(n, remaining)` characters, none for `n <= 0`, nothing consumed |
| Splitter.FindTagEndFrom | main.go:353-368 | the scan of the lookahead for a tag's closing `$`, from index `i` on |
| Splitter.FindTagEnd | main.go:350-368 | the closing `$` is found exactly when one comes before any space, newline or tab |
| Splitter.DetectedTagIsDollarTag | src/main/java/com/example/Main.java:228-246 | a detected tag lies inside the input and is `$`, up to 63 characters that are neither `$` nor a break, and `$` |
| Splitter.Step | main.go:282-390 | one loop iteration keeps the scan well formed and always moves forward |
| Splitter.StepCutsOnlyAtBoundary | main.go:381-389 | a `;` in `Normal` cuts the buffer off, without the `;`, and empties it; every other read appends exactly the characters it reads |
| Splitter.StepNeverNests | main.go:296-373 | a region opens only from `Normal` and closes only back to it |
| Splitter.StepClosesOnOwnDelimiter | main.go:296-379 | quotes close on their own quote, line comments on a newline, block comments on `*/`, and a dollar-quoted body only on its own tag |
| Splitter.Run | main.go:282-290 | the scan ends at the end of the input and is well formed there |
| Splitter.EncodedFlagsExclusive | main.go:278-280 | flags that encode a region have at most one set, and `dollarTag` is nonempty exactly in a dollar-quoted body |
| Splitter.StepInLineComment | main.go:296-302 | inside a line comment one character is kept; a newline returns to `Normal` |
| Splitter.StepInBlockComment | main.go:304-313 | inside a block comment `*/` is kept and closes it; any other character is kept and the comment stays open |
| Splitter.StepInDollarQuoted | main.go:315-328 | inside a dollar-quoted body the own tag is kept whole and closes it; any other character is kept |
| Splitter.StepOpensLineComment | src/main/java/com/example/Main.java:218-222 | a line-comment opener keeps both of its characters and opens the comment |
| Splitter.StepOpensBlockComment | main.go:341-349 | `/*` keeps both characters and opens a block comment |
| Splitter.StepAtDollar | main.go:350-372 | a `$` with a detected tag keeps the tag and opens its body; otherwise the `$` is read as an ordinary character |
| Splitter.StepPlainOrQuote | main.go:375-389 | a character that opens nothing toggles its quote region, cuts at a boundary, or is kept |
| Splitter.ReadInto | main.go:358-361 | reading `n` characters the lookahead has shown advances by `n` and appends them in order |
| Splitter.NoTagEndPastBreak | main.go:364-367 | once a break comes before any `$`, no tag is detected |
| Splitter.OpenDollarQuote | main.go:350-372 | the `$` block: on a detected tag, returns the tag, consumes it and keeps it; otherwise returns "" and consumes nothing |
| Splitter.ReadLineComment | main.go:296-302 | the line-comment branch: one character kept, and the comment stays open unless it was a newline |
| Splitter.ReadBlockComment | src/main/java/com/example/Main.java:194-201 | the block-comment branch: `*` followed by `/` is kept and closes; anything else is kept |
| Splitter.ReadDollarBody | src/main/java/com/example/Main.java:203-215 | the dollar-body branch: the own tag is kept and clears `dollarTag`; anything else is kept |
| Splitter.ReadOpener | src/main/java/com/example/Main.java:217-251 | outside quotes: a line-comment, block-comment or dollar-tag opener is kept and sets its flag; otherwise only the character is consumed |
| Splitter.ReadPlain | main.go:375-389 | quote toggling, statement emission at a boundary, and keeping any other character |
| Splitter.AdvanceInside | main.go:296-328 | the three region branches perform exactly one specification `Step` |
| Splitter.AdvancePlain | main.go:375-389 | the tail of the loop body performs exactly the plain step |
| Splitter.AdvanceOutside | main.go:330-389 | the loop body outside comments and dollar bodies performs exactly one `Step` |
| Splitter.Advance | main.go:282-390 | one pass of the loop body performs exactly one `Step` and keeps the flags encoding the new region |
| Splitter.SplitSQLStatements | main.go:274-396 | the loop, for the Go and the Java version (Main.java:170-279), returns exactly `Split` of the input |
| SplitterProps.StepStays | main.go:296-301 | a character that neither ends nor changes the region only moves the scan on |
| SplitterProps.RunStays | main.go:282-301 | a stretch of such characters moves the scan on and cuts nothing |
| SplitterProps.RunPlain | main.go:389 | plain characters stay in the current statement |
| SplitterProps.RunLineComment | main.go:296-302 | a line comment runs to its newline and returns to `Normal`; no `;` inside it splits |
| SplitterProps.RunLineCommentToEnd | main.go:392-394 | a line comment with no newline runs to the end of the input |
| SplitterProps.RunBlockComment | main.go:304-313 | a block comment runs to its first `*/` |
| SplitterProps.RunBlockCommentToEnd | src/main/java/com/example/Main.java:194-201 | an unclosed block comment runs to the end of the input |
| SplitterProps.RunQuoted | main.go:375-379 | a quoted literal runs to its next own quote, with no escapes |
| SplitterProps.RunDollarQuoted | main.go:315-328 | a dollar-quoted body runs to its own closing tag; other `$` characters are ordinary |
| SplitterProps.DollarCloseStep | main.go:317-325 | the closing tag is consumed whole and returns to `Normal` |
| SplitterProps.StepPreservesContent | main.go:381-389 | each step keeps "the buffers joined with `;` spell the input read so far" |
| SplitterProps.RunPreservesContent | main.go:282-390 | that invariant holds at the end of the input |
| SplitterProps.ContentPreserved | main.go:274-396 | the raw segments joined with `;` are exactly the script: nothing is lost, duplicated or reordered |
| SplitterProps.SplitAtSemicolons | main.go:381 | the reference split has at least one piece and no `;` in any piece |
| SplitterProps.SplitAtSemicolonsJoins | main.go:381-388 | the reference split loses nothing but the separators |
| SplitterProps.PlainScriptStep | main.go:375-389 | in a script where nothing opens, each step stays in `Normal` and keeps the pieces equal to the reference split of the text read so far |
| SplitterProps.RunPlainScript | main.go:381-389 | on a script with no quote and no index where a comment or a dollar-quoted body opens (a `-`, `/` or `$` may appear), the scan cuts exactly at every `;` |
| SplitterProps.PlainScriptSplit | main.go:381-394 | on such scripts a version returns the trimmed nonempty pieces between semicolons |
| SplitterReparse.StepKeeps | main.go:389 | a step that does not cut keeps the statement's start and the buffers already cut |
| SplitterReparse.ToBoundaryQuiet | main.go:282-390 | the scan reaches its next boundary, or the end, without cutting, and the rest of the scan is unchanged |
| SplitterReparse.StepAtBoundary | main.go:381-388 | a boundary cuts the statement off and starts the next one in `Normal` |
| SplitterReparse.NoSemicolonRun | main.go:381 | with no `;` ahead, the rest of a scan cuts nothing |
| SplitterReparse.SpaceIsInert | main.go:382 | no whitespace character of either version is a quote, `;`, `-`, `/`, `*` or `$` |
| SplitterReparse.QuietSkipsSpace | main.go:375-389 | whitespace read in `Normal` leaves the scan in `Normal` without cutting |
| SplitterReparse.LongStepEndsOnDelimiter | main.go:306-361 | a step that reads several characters ends on `-`, `*`, `/` or `$`, never on whitespace |
| SplitterReparse.PeekInside | main.go:288-294 | the lookahead inside a statement is a prefix of the script's, and equal to it when it stays in the statement |
| SplitterReparse.LineOpenerInside | main.go:331-332 | a line-comment opener inside a statement is one in the script, and the converse holds except for Go's `--` ending the statement |
| SplitterReparse.TagInside | main.go:350-368 | a dollar tag inside a statement is detected exactly when the script detects it |
| SplitterReparse.StepInside | main.go:296-389 | one step of a statement's own scan matches the script's step, except after Go's final `--`, where no `;` remains |
| SplitterReparse.Simulate | main.go:282-390 | a statement's own scan cuts nothing when the script's scan crosses it quietly with only whitespace after it |
| SplitterReparse.QuietStretchReparses | main.go:382-385 | the trim of such a stretch splits again to exactly itself |
| SplitterReparse.PiecesReparse | main.go:381-394 | every raw buffer of the script re-splits to its own trim |
| SplitterReparse.SplitIdempotent | main.go:274-396 | every statement a version returns, split again by that version, is its one and only statement |
| SplitterExamples.UnitTestScript | src/test/java/com/example/MainTest.java:13-25 | the unit test's script gives exactly two statements in both versions; they begin `-- keep ; in comment` + newline + `select` and `/* block ; comment */` + newline + `update` |
| SplitterExamples.DashDashGo | main.go:331-340 | in Go, `--x;y` is not a comment and splits into `--x` and `y` |
| SplitterExamples.DashDashJava | src/main/java/com/example/Main.java:218-222 | in Java, `--x;y` is one line comment and one statement |
| SplitterExamples.DashDashDiffers | main.go:332 | the two versions return different statements for `--x;y` |
| SplitterExamples.UnterminatedBlockComment | main.go:392-394 | `select 1; /* never closed` gives `select 1` and the unclosed comment as a final statement, without an error |
| Config.EngineOfIgnoresCase | main.go:106-107 | engine names are matched case-insensitively |
| Config.DefaultPort | main.go:117-128 | 1521, 1433 or 5432 for a supported engine, and 0 exactly when the engine is unsupported |
| Config.DriverName | main.go:130-141 | the empty driver name exactly for an unsupported engine |
| Config.EnginesDistinct | main.go:117-141 | distinct supported engines have distinct default ports and driver names |
| Config.DefaultingIsStable | main.go:111-113 | after a successful validation, the port is nonzero and defaulting again changes nothing |
| Config.GoConfig.constructor | main.go:20-28 | the configuration holds the given fields |
| Config.GoConfig.Validate | main.go:93-115 | returns the first failing check among engine, host, dbname, sql path and supported engine; a zero port takes the engine default only on success, and nothing else changes |
| Config.StripDashes | src/main/java/com/example/Main.java:323 | `replaceFirst("^-+", "")`: a suffix of the argument not starting with `-`, with all dashes before it dropped |
| Config.ThenUnknown | src/main/java/com/example/Main.java:319-322 | a token without `-` records "unknown argument" and parsing goes on with the next token |
| Config.ThenFlag | src/main/java/com/example/Main.java:323-328 | a flag and its value store the value under the stripped key and skip two tokens |
| Config.ThenMissing | src/main/java/com/example/Main.java:324-327 | a flag at the end records "missing value for" the flag |
| Config.ThenEnd | src/main/java/com/example/Main.java:317 | the loop stops at the end of the arguments |
| Config.FromArgs | src/main/java/com/example/Main.java:313-369 | the argument loop gives exactly the recursive parse, settled with the field defaults, the port rule and the errors in source order |
| Config.BuildJdbcUrl | src/main/java/com/example/Main.java:152-159 | a URL exactly for a supported engine, otherwise the "unsupported engine" error |
| Config.GoReportsJavasFirstError | main.go:93-110 | across all settings, Go's single error is the first of the errors Java collects from the same checks |
| Config.NoErrorsMeansUrl | src/main/java/com/example/Main.java:346-366 | a configuration without errors always builds a URL and has a nonzero port, the default when none was given |
| Config.SamePortWhenValid | main.go:111-113 | on flags with no missing or unsupported field, Go's `validate` accepts the settings read from them and sets the same port as Java's `fromArgs` (Main.java:364-366) |
| Config.LaterFlagWins | src/main/java/com/example/Main.java:328 | a key given again later keeps the later value |
| Config.FlagValueMayStartWithDash | src/main/java/com/example/Main.java:324-328 | whatever follows a flag is its value, even another flag |
| Config.UnknownArgumentSkipped | src/main/java/com/example/Main.java:319-322 | an unknown argument is reported and does not stop parsing |
| ConfigExamples.SettleComplete | src/main/java/com/example/Main.java:331-368 | flags naming a supported engine and every required field settle to the full configuration, with username `db_admin` and the port defaulted or parsed |
| ConfigExamples.PostgresUrl | src/test/java/com/example/MainTest.java:30-33 | the test's PostgreSQL command line gives `jdbc:postgresql://127.0.0.1:5432/app` |
| ConfigExamples.SqlServerUrl | src/test/java/com/example/MainTest.java:35-38 | the test's SQL Server command line gives `jdbc:sqlserver://db.local:1435;databaseName=app` |
| Table.ColumnWidthIsMax | main.go:231-241 | a column's width is at least its header's and every cell's length, and equals one of them |
| Table.WidthsAreMaxima | src/main/java/com/example/Main.java:113-121 | every column's width is at least its header's and each of its cells' lengths, and equals one of them |
| Table.ColumnWidths | main.go:230-241 | the nested loops compute exactly those widths |
| Table.WidthStep | src/main/java/com/example/Main.java:118-120 | one more row widens a column to that row's cell when the cell is longer |
| Table.WidthsFit | main.go:264-268 | the header and every row fit the computed widths, so no padding count is negative |
| Table.BuildSeparator | main.go:251-259 | the loop builds exactly `SeparatorLine` |
| Table.BuildRow | main.go:261-272 | the loop builds exactly `RowLine` |
| Table.PrintTable | main.go:230-249 | the lines are a separator, the header, a separator, one line per row, and a separator, all over the maximal widths |
| Table.SeparatorLength | main.go:251-259 | a separator is one plus width plus three per column long |
| Table.RowLength | main.go:261-272 | a row line is as long as the separator over the columns it fills |
| Table.SeparatorChars | src/main/java/com/example/Main.java:131-139 | a separator holds only `+` and `-`, with `+` at both ends |
| Table.SeparatorPrefix | main.go:253-257 | the separator over the first `c` columns begins the full separator |
| Table.RowPrefix | main.go:263-270 | the line of the first `c` cells begins the full row line |
| Table.ColumnBorders | src/main/java/com/example/Main.java:131-150 | after every column, the separator's `+` and the row's vertical bar are at the same position |
| Table.CellPlacement | src/main/java/com/example/Main.java:141-150 | each cell is printed one space after the border of the previous column |
| Table.LastCell | main.go:266-269 | the last cell follows the line of the cells before it and one space |
| Table.PrefixLength | main.go:261-272 | the line of the first `c` cells has the length of the first `c` columns |
| Table.AlignedTable | main.go:230-249 | when every row has a cell per column, every line of the table has the same length |

## Left out

- The `main` functions are not modelled, because they are I/O and calls into database
  drivers. This covers flag and argument handling in Go (`flag`), reading the script
  file, connecting, transactions, timeouts, `executeStatement`, `printRows` and
  `buildDSN`.
- Go's `config.port` comes from `flag.Int`. The model takes any integer.
- Printing is modelled as returning the printed lines in order; writing to standard
  output is not modelled.
- Characters: a string is a sequence of Dafny `char`, each a Unicode scalar value, and
  one character is one unit read.
  - For Java this is exact on text without surrogate pairs. A character outside the
    Basic Multilingual Plane is two Java `char`s. That matters where lengths are
    counted: the 64 units of `peek(reader, 64)`, which bound a dollar tag, and
    `String.length()` in the table widths.
  - For Go it is exact on ASCII text only. Go's reader decodes UTF-8 runes, which
    differs from one character per unit only on invalid UTF-8. The difference is
    where Go counts bytes, not runes, in three places:
    - `next(64)` (main.go:351) peeks 64 bytes, so the window that bounds a dollar tag
      holds fewer than 64 characters when it contains non-ASCII text.
    - main.go:318-322 and main.go:358-361 read `len(dollarTag)-1` and `len(tag)-1`
      runes, and `len` counts bytes. With a non-ASCII tag, Go reads characters past
      the tag, and the split changes. On `$é$;x$é$;y`, Go returns one statement,
      `$é$;x$é$;y`, because opening and closing the tag each also read the `;` after
      it. The model reads the tag's own characters and returns `$é$;x$é$` and `y`.
    - `len(col)` and `len(cell)` (main.go:231-240, 265) count bytes in the table
      widths and paddings.
- The Java splitter's `IOException` path is not modelled, because a `StringReader` never
  throws.
- Config.EngineOf: lower-casing is ASCII only (`A`–`Z`). Go's `strings.ToLower` and
  Java's `toLowerCase(Locale.ROOT)` also fold non-ASCII letters. This only matters for
  engine names containing non-ASCII letters that lower-case to ASCII.
- Text.ParseInt: only ASCII digits are digits. Java's `Integer.parseInt` also accepts
  other Unicode decimal digits.
- Table.PrintTable requires every row to have at most as many cells as there are columns.
  With more cells, the source indexes past the widths and fails. The database rows the
  clients print always have exactly one cell per column.
