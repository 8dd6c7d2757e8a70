# Relaxed-scan geometry reader, modelled in Dafny

This project models the core of `Reader.java`. That program reads the text log of a
Gaussian relaxed potential-energy-surface scan and finds the optimized geometry of
every scan step. It has five parts:

- **findAtoms** reads the atom count M. This is the token after the first token that
  contains `NAtoms`.
- **findReps** reads the step count N. This is the right-justified three-character
  number at the end of the line after `Search for a local minimum`.
- **scanFile** indexes, for every step i in 1..N, the 1-based numbers of the lines
  that hold the progress marker `" " + i + " out of" + padding + N`.
- **saveGeoms** goes past the last marker line of each step to the next
  `Standard orientation` header. It skips four lines and hands the next M rows to
  **processLines**, which turns each row into an `Atom`.

The log is a `seq<string>` of lines. Every Java method keeps a `Scanner` cursor and
moves it through the log in `while`/`for` loops. Here each one is a Dafny `method`
with the same loops over an index into that sequence. Each method is proved against
a specification function: `AtomCount`, `Reps`, `IsMarkerList`, `ParseRows` or
`StepGeometry`. Lemmas then prove what those functions promise. Exceptions become
`None`. The exception is `findAtoms`, which catches everything and keeps 0, so it
returns 0 there too. The Java string and number primitives are modelled in the
module `JavaText` (`java_text.dfy`). These are `String.contains`, `String.trim`, the
`Scanner` whitespace split, the `nextDouble` token syntax, `Integer.parseInt` and
`Integer.toString`.

The model keeps these behaviours of the code as written:

- `findReps` and `saveGeoms` test only every other line. The extra `nextLine()` at
  lines 77 and 192 reads the next line without testing it (`StrideSearch`). A
  header on an untested line is never seen (`RepsIgnoresUntestedLines`).
- `findReps` has no result when the header is missing, when the header is on the
  last line, or when the following line is shorter than three characters or does
  not hold an integer. Lines 84-86 are outside the `try`, so the exception escapes
  (`Reps` is `None`).
- In `saveGeoms`, one exception ends the whole loop. Causes include an empty marker
  list, a read past the end of the log, or a row that does not parse. The geometries
  of the steps already done are returned and the remaining steps are dropped
  (`SaveGeoms`).
- When no tested line after the last marker holds the header, the step yields the
  empty geometry only if an even number of lines follows the marker. With an odd
  number, the untested read at line 192 throws and the run stops
  (`StepWithoutHeader`).

Two further behaviours of the code as written:

- **Marker padding.** Lines 103-108 add `6 - digits(N)` spaces after `" out of"`, so
  for N = 6 the suffix is `" out of     6"`, 13 characters long
  (`NeedleOfStepTwoOfSix`, `MarkerSuffixShape`).
- **Failures are not reported.** `findAtoms` returns 0, `findReps` crashes, and
  `saveGeoms` appends an empty geometry or stops all remaining steps.

## Model

| member | source | states |
|---|---|---|
| `Reader.Atom` | Reader.java:11-19 | an atom is its atomic number and its list of coordinates |
| `JavaText.Contains` | Reader.java:43 | `String.contains`: a pattern that occurs is no longer than the string, and the empty pattern occurs in every string |
| `JavaText.Tokens` | Reader.java:42-44 | every token the Scanner returns is non-empty and contains no whitespace |
| `JavaText.TokensOfAlignWords` | Reader.java:144-151 | splitting a row set in columns of any widths gives back exactly its words, in order |
| `JavaText.TokensOfPaddedWord` | Reader.java:144-151 | blanks, then a word, then a rest that starts with whitespace, split into that word followed by the tokens of the rest |
| `JavaText.TokensOfWordThenRest` | Reader.java:144-151 | a word followed by nothing or by whitespace is the first token, and the rest's tokens follow it |
| `JavaText.TokensAfterSpaces` | Reader.java:144-151 | leading blanks do not change the tokens of a string |
| `JavaText.TokensAppendSpace` | Reader.java:185 | the `"\n"` appended to each collected row does not change its tokens |
| `JavaText.Trim` | Reader.java:86 | `String.trim`: the result is no longer than the input and neither starts nor ends with a character up to U+0020 |
| `JavaText.TrimPadded` | Reader.java:84-86 | trimming a blank-padded word gives the word |
| `JavaText.ParseWhole` | Reader.java:50 | a whole number of k characters lies strictly between -10^(k-1) and 10^k |
| `JavaText.WholeBounds` | Reader.java:50 | k digits, with or without a sign in front, denote a value below 10^k |
| `JavaText.DigitsValueBound` | Reader.java:50 | a string of k digits denotes a number below 10^k |
| `JavaText.ParseInt` | Reader.java:50 | a parsed value is a 32-bit integer; anything else is a NumberFormatException (`None`) |
| `JavaText.ParseIntRoundTrip` | Reader.java:50 | `Integer.parseInt(Integer.toString(n)) == n` for every 32-bit n |
| `JavaText.ParseWholeRoundTrip` | Reader.java:146 | the atomic-number token printed from any integer parses back to it |
| `JavaText.DigitsLength` | Reader.java:103 | a number below 10^k has at most k digits, which fixes the padding width |
| `JavaText.IsDecimal` | Reader.java:145-150 | a token `nextDouble` accepts is non-empty and starts with a sign, a digit or a point |
| `JavaText.DecimalIsWord` | Reader.java:145-151 | a token `nextDouble` accepts has no whitespace |
| `JavaText.DecimalStringIsNumberToken` | Reader.java:145-147 | every printed integer is a token `nextDouble` accepts |
| `Reader.FirstContainingCases` | Reader.java:42-48 | the token search returns the first token at or after the start that contains the key, or none exists |
| `Reader.StrideSearch` | Reader.java:71-78 | a found line is a tested line (start, start+2, ...) of the log that holds the pattern; the cursor reaches the end only when an even number of lines remain, and the skipped read throws only when an odd number remain |
| `Reader.StrideSearchCases` | Reader.java:71-78 | the cursor loop returns the first tested line (start, start+2, ...) holding the pattern; with no match it stops at the end when an even number of lines remain and throws when an odd number remain |
| `Reader.StrideSearchFinds` | Reader.java:180-193 | the first tested line holding the pattern is the line the loop stops at |
| `Reader.FindAtoms` | Reader.java:36-55 | the loop returns `AtomCount`: the integer after the first `NAtoms` token, else 0 |
| `Reader.AtomCountAfterKey` | Reader.java:42-54 | the atom count is the 32-bit value of the token after the first `NAtoms` token; 0 when nothing follows it or it is not an integer |
| `Reader.AtomCountWithoutKey` | Reader.java:37-54 | with no token containing `NAtoms`, the atom count is 0 |
| `Reader.AtomCountReadsPrintedCount` | Reader.java:43-50 | a log whose first `NAtoms` token is followed by the printed count m reads back m |
| `Reader.CountField` | Reader.java:84-86 | a count is read only from a line of at least three characters, and a three-character field holds a value in -99..999 |
| `Reader.ShortFieldBound` | Reader.java:84-86 | a whole number of at most three characters lies in -99..999 |
| `Reader.FindReps` | Reader.java:65-89 | the loop and the three-character read return `Reps`: the count field of the line after the first tested header, or `None` when the code throws |
| `Reader.CountFieldOfPadded` | Reader.java:84-86 | a line ending in a right-justified three-character count n yields n |
| `Reader.RepsReadsRightJustifiedCount` | Reader.java:71-86 | with the header on a tested line followed by a line ending in the padded count n, the step count is n |
| `Reader.RepsUndefinedWithoutHeader` | Reader.java:71-86 | when no tested line holds the header, findReps has no result |
| `Reader.RepsIgnoresUntestedLines` | Reader.java:71-78 | a header that occurs only on an even-numbered (untested) line is never found |
| `Reader.MarkerSuffix` | Reader.java:103-108 | the suffix starts with `" out of"` and is at least 13 characters long |
| `Reader.Needle` | Reader.java:121 | the needle is a blank, then a digit or minus sign, and it ends with the marker suffix |
| `Reader.MarkerSuffixShape` | Reader.java:103-108 | the suffix is `" out of"`, then spaces, then the digits of N, and is 7 + max(6, digits) long; 13 for 0 <= N < 10^6 |
| `Reader.NeedleOfStepTwoOfSix` | Reader.java:103-121 | the needle for step 2 of 6 is `" 2 out of     6"` |
| `Reader.NeedlesDistinct` | Reader.java:121 | for steps i != j the needle of i never occurs inside the needle of j |
| `Reader.PaddedDigitsNoOccurrence` | Reader.java:121 | a space, one digit string and a space-led suffix never occur at any offset inside a space, a different digit string and the same suffix |
| `Reader.BuildLook` | Reader.java:103-108 | the padding loop builds exactly the marker suffix |
| `Reader.MarkerLines` | Reader.java:114-125 | the line loop returns the ascending 1-based numbers of exactly the lines containing the needle |
| `Reader.ScanFile` | Reader.java:101-132 | the map has exactly the keys 1..N, and key i holds the ascending numbers of exactly the lines containing step i's needle, all between 1 and the line count |
| `Reader.MarkerListUnique` | Reader.java:113-126 | the marker list of a needle is determined by the log: two lists meeting the specification are equal |
| `Reader.LastMarkerIsFinalOccurrence` | Reader.java:172-173 | the last entry of a step's list is a line holding the needle, and no later line holds it |
| `Reader.ParseRow` | Reader.java:144-152 | a parsed row has three leading tokens and then the coordinates: its number is the whole-number value of the 2nd token, and its coordinates are exactly the 4th and later tokens, each a `nextDouble` token |
| `Reader.Collect` | Reader.java:143-153 | the collected list exists iff every entry is present; then it has one value per entry, in order |
| `Reader.CollectPresent` | Reader.java:143-153 | entries that are all present collect to exactly their values |
| `Reader.ParseRows` | Reader.java:141-155 | parsing succeeds iff every row parses; then it yields one atom per row, in row order, each the parse of its row |
| `Reader.RowsParse` | Reader.java:141-155 | rows that each parse to their atom yield exactly those atoms, in order |
| `Reader.ProcessLines` | Reader.java:141-155 | the row loop returns `ParseRows` of its input |
| `Reader.ParsePrintedRow` | Reader.java:144-152 | a row whose tokens are any centre number, the atomic number, any atomic type and the coordinates parses back to that atom, whatever its spacing |
| `Reader.FormatRowIsPrinted` | Reader.java:144-151 | a row set in columns of any widths has as tokens its centre, atomic number, type and coordinates |
| `Reader.StepGeometry` | Reader.java:171-194 | a step with an empty marker list throws (`list.get(-1)`), and a step's geometry has either exactly max(M, 0) atoms or none |
| `Reader.GeometryFrom` | Reader.java:180-193 | the geometry found after a start line has exactly max(M, 0) atoms or none |
| `Reader.TableGeometry` | Reader.java:181-189 | a table that reads has exactly max(M, 0) atoms |
| `Reader.ExtractStep` | Reader.java:171-194 | one step of the loop returns `StepGeometry`: throws on an empty list or a read past the end, yields the empty geometry when the cursor reaches the end, else parses the table after the first tested header |
| `Reader.SkipLines` | Reader.java:175-177 | skipping to the last marker line leaves the cursor on line max(line, 0), or throws when the log is shorter |
| `Reader.SearchHeader` | Reader.java:180-193 | the header loop returns the stride search for `Standard orientation` from the cursor |
| `Reader.ReadGeometry` | Reader.java:178-193 | the search and table read return the geometry from the cursor line |
| `Reader.ReadTable` | Reader.java:181-189 | after the header, skips 4 lines and parses the next M lines, or throws when the log ends first |
| `Reader.CollectRows` | Reader.java:183-187 | the row loop collects the next M lines, each with `"\n"` appended, or throws when the log ends first |
| `Reader.SaveGeoms` | Reader.java:167-204 | returns the geometries of the steps in key order up to the first step that throws; every returned geometry is its step's `StepGeometry`, and if steps are missing the first missing one threw |
| `Reader.TerminatedRowParses` | Reader.java:185-189 | a printed row of any centre, type and spacing, with its appended `"\n"`, parses back to its atom |
| `Reader.PrintedBlockParses` | Reader.java:183-189 | every row of a block of printed rows, each with any centre, type and spacing, parses back to its atom |
| `Reader.TableOfPrintedRows` | Reader.java:181-189 | a header followed by 4 lines and M printed rows, each with any centre, type and spacing, yields exactly those M atoms in row order |
| `Reader.ExtractsPrintedBlock` | Reader.java:172-190 | with the header on the first tested line after the step's last marker and M printed rows (any centre, type and spacing) after the preamble, the step's geometry is exactly those M atoms |
| `Reader.StepWithoutHeader` | Reader.java:180-194 | with no header on a tested line after the last marker, the step is the empty geometry when an even number of lines follows and throws when an odd number follows |

## Left out

- `main` (Reader.java:290-324) is not modelled. It prompts on standard input and prints the map for keys 1..19.
- `readTemplate` (Reader.java:215-231) is not modelled. It reads a file into lines.
- `makeInput` (Reader.java:240-287) is not modelled. It writes files and formats doubles. Its element-symbol table is a plain lookup.
- `Atom.ret` (Reader.java:21-26) is not modelled. It prints to the console.
- File handling is not modelled. Each operation takes the log's lines, so a file that cannot be opened is not represented. The stack traces the `catch` blocks print are also left out.
- `Scanner.hasNext()` is true only while a non-blank token remains. The model treats it as "a line remains", so trailing blank lines are read as ordinary lines.
- `JavaText.IsSpace` covers Java's whitespace below U+0080 only. The Unicode space separators that Java also treats as whitespace are not included.
- `JavaText.ParseWhole` accepts ASCII digits only. `Integer.parseInt` also accepts other Unicode decimal digits.
- `JavaText.IsDecimal` covers signed decimal numbers with an optional point and exponent. It leaves out what `nextDouble` also accepts: locale grouping separators, `NaN`, `Infinity` and hexadecimal floating-point.
- `JavaText.IsDecimal` assumes a locale whose decimal separator is `.` and whose digits are ASCII. `nextDouble` follows the JVM's default locale, and its `\p{javaDigit}` digits are not modelled.
- Coordinates are kept as their text tokens. The `double` values that `nextDouble` computes are not modelled (no IEEE floating point).
- `Reader.ParseRow` needs a whole-number atomic-number token. Java reads that token with `nextDouble`, so a token such as `6.0` works there but fails the row here. The atomic number is an unbounded `int` rather than a `double`.
- `Reader.SaveGeoms` takes the order in which the map's keys are visited as the parameter `order`. For the keys 1..N that `scanFile` produces, Java's `HashMap` visits them in ascending order only while N <= 65536. From N = 65537 on, `HashMap.hash` places key 65537 in an earlier bucket than key 65536. `findReps` yields at most 999, so the Java program's own runs stay in the ascending range.
- `Reader.CountField` counts the characters of a line as Unicode scalar values. `length()` and `charAt` at Reader.java:84 count UTF-16 code units, so a line ending in a character outside the Basic Multilingual Plane gives a different three-character field. Gaussian logs are ASCII, where the two agree.
- `Reader.ScanFile` does not model overflow of the 32-bit loop counter. With N = 2^31 - 1 the Java loop never ends.
