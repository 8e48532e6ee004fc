# XPNavAidParser in Dafny

A model of the line-format parsers of XPNavAidParser, a small C++ library
that reads X-Plane's navigation data for chart making:

- the `NavAid` constructor, which turns one row of `earth_nav.dat` into a
  navaid record (row-code switch with its fall-throughs, frequency rule,
  ident and name, the Decca re-typing on fields 8 and 9), and
  `ParseEarthNavDat`, which skips the two header lines, stops at the first
  `99` line, skips empty lines and drops every row whose construction throws;
- `ParseAptDat`, which reads `apt.dat`: a `1` line opens an airport (ICAO
  code from field 4, name from field 5), a `100` line adds a runway (ends
  from fields 9/10 and 18/19) to the last airport, every other line is
  ignored, and a `99` line ends the read;
- the string helpers of parseutil.h: `tokenise`, `detokenise` and
  `to_upper`. `ParseAptDat` calls `tokenise`. navparser.h does not include
  parseutil.h: the `NavAid` constructor tokenises its row, joins the name
  fields and upper-cases fields 8 and 9 with its own code, which does what
  those three helpers do, and the model states that code through them.

Files:

- `wrappers.dfy` — `Option` and `Result`.
- `parseutil.dfy` — module `ParseUtil`: tokens, joining, upper-casing.
- `numeric.dfy` — module `Numeric`: which fields `std::stoi` and `std::stof`
  accept, and the value `stoi` yields.
- `navparser.dfy` — module `NavParser`: the navaid record, its constructor
  and the `earth_nav.dat` reader.
- `aptparser.dfy` — module `AptParser`: airports, runways and the
  `apt.dat` reader.

Both readers take the file as a sequence of lines (what `getline` would
return, without line terminators). A thrown exception is a `Failure`
naming the field that could not be converted (`BadNumber(k)`) or
`NotEnoughFields`. The model is imperative where the code is: the
constructor (`ParseNavAid`), both reader loops, `Detokenise` and `ToUpper`
are methods proved against the specification functions `NavAidOf`,
`ParsedFrom`, `AptFrom`, `Join` and `Upper`, and the lemmas state what those
functions promise.

`stoi` is modelled exactly as far as the parsers can observe it: an
optional sign, then the longest run of decimal digits (text after the run
is ignored); it throws when there is no digit or the value does not fit a
32-bit `int`. For `stof` only acceptance is modelled (after an optional
sign: a digit, a `.` followed by a digit, or `inf`/`nan` in any case);
the converted coordinates are kept as the field text.

Two behaviours of the constructor on Decca rows are worth stating:

- A row whose field 8 is `DECCA` (in any case) is re-typed only when field 9
  is `MASTER`, `RED`, `GREEN` or `PURPLE` (in any case); any other field 9
  keeps the type from the row code and the whole tail as name. The row
  `2 48.6 -1.6 0 0 0 0 LFG DECCA 7B CHERBOURG CHAIN` is read as an NDB named
  `DECCA 7B CHERBOURG CHAIN` (`NavParser.DeccaChannelRowKeepsTableType`).
- A row with `DECCA` as its last field (field 8 of nine) is read past its
  end: the code reads `tokens[9]` with `operator[]`, which does not throw,
  so the surrounding `try` never fires. The model makes field 9's presence
  a precondition (`NavParser.RoleReadable`) instead of an error.

## Model

| member | source | states |
|---|---|---|
| ParseUtil.Detokenise | parseutil.h:94-103 | Joins tokens [start, end) with single spaces; the first token is read before the range is compared with its end, so an empty or one-token range yields `tokens[start]` and `start` must index a token |
| ParseUtil.ToUpper | parseutil.h:105-108 | The in-place transform yields `Upper(str)`, the character-wise C-locale upper-casing |
| ParseUtil.UpperAt | parseutil.h:105-108 | to_upper keeps the length and maps every position through `toupper` on its own |
| ParseUtil.UpperLetters | parseutil.h:105-108 | 'a'..'z' become the capital 32 code points lower, every other character is unchanged, and no lower-case letter remains |
| ParseUtil.UpperIdempotent | parseutil.h:105-108 | to_upper applied twice equals to_upper applied once |
| ParseUtil.Tokenise | parseutil.h:87-92 | Splits a line at whitespace as `istream_iterator<string>` does; an empty line has no tokens, and `TokeniseWords`, `TokeniseKeepsText`, `TokeniseSplitsAtSpace` and `JoinRoundTrip` state the rest (non-empty whitespace-free tokens holding exactly the line's text, in order) |
| ParseUtil.WordLengthSpec | parseutil.h:87-92 | A token extends up to, and not past, the first whitespace character |
| ParseUtil.TokeniseWords | parseutil.h:87-92 | Every token of a line is non-empty and holds no whitespace |
| ParseUtil.TokeniseKeepsText | parseutil.h:87-92 | The tokens concatenated in order are exactly the line with all whitespace removed (nothing lost, nothing reordered) |
| ParseUtil.TokeniseSplitsAtSpace | parseutil.h:87-92 | Tokenising a line split at a whitespace character gives the tokens of the left part followed by those of the right part |
| ParseUtil.WordLengthBeforeSpace | parseutil.h:87-92 | A token never runs across a whitespace character |
| ParseUtil.SqueezeAppend | parseutil.h:87-92 | Removing whitespace distributes over concatenation |
| ParseUtil.SqueezeWord | parseutil.h:87-92 | A whitespace-free string is unchanged by removing whitespace |
| ParseUtil.TokeniseWord | parseutil.h:87-92 | A single whitespace-free token tokenises to itself |
| ParseUtil.JoinRoundTrip | parseutil.h:87-103 | Joining tokens with single spaces and tokenising again gives the same tokens back |
| ParseUtil.DetokeniseRoundTrip | parseutil.h:87-103 | tokenise(detokenise(tokenise(line))) == tokenise(line) for every line with a token |
| Numeric.DigitRunSpec | navparser.h:88-90 | The digit run `stoi` reads is all digits and stops at the first non-digit |
| Numeric.NatDigits | navparser.h:88-90 | The decimal rendering used as the inverse of stoi in `StoIRoundTrip` (the source never renders numbers) is non-empty and all digits |
| Numeric.DigitRunOfNumeral | navparser.h:88-90 | A numeral followed by a non-digit is read up to exactly its last digit |
| Numeric.StoIRoundTrip | navparser.h:88-90 | stoi reads back every 32-bit int written in decimal, whatever non-digit text follows |
| Numeric.StoIRejectsNonNumeral | navparser.h:88-90 | stoi throws on a field with no digit after its optional sign |
| Numeric.StoIAcceptedByStof | navparser.h:88-90 | In the model, every field stoi accepts, stof accepts too; in C++ a field such as "1e99" is read by stoi and makes stof throw `out_of_range`, which the model leaves out |
| NavParser.RowCodeSwitch | navparser.h:52-86 | The switch with its two fall-throughs (5 into 4, 12 into 13) selects the table's type and standalone flag for every row code |
| NavParser.DeccaBranch | navparser.h:114-135 | Upper-cased field 8 equal to "DECCA" re-types by the upper-cased field 9 role; otherwise the type is kept |
| NavParser.TableRecord | navparser.h:48-112 | The record the constructor has built before its Decca check, or the first failing step; a record implies at least nine fields; `ShortRowRejected`, `RowCodeTable`, `FrequencyRule`, `MarkerSkipsFrequencyField` and `IdentAndName` state its fields |
| NavParser.NavAidOf | navparser.h:48-135 | The constructor's outcome: it succeeds exactly when the record before the Decca check succeeds, so the Decca branch never throws on a readable row and only re-types (`DeccaOverride`, `DeccaKeepsFrequencyAndStandalone`) |
| NavParser.ParseNavAid | navparser.h:40-136 | The constructor yields exactly `NavAidOf(tokenise(row))`: the record, or the first failing step (too few fields, or the field stoi/stof rejects) |
| NavParser.ShortRowRejected | navparser.h:48-50 | A row with fewer than nine fields is rejected with NotEnoughFields |
| NavParser.RowCodeTable | navparser.h:52-86 | Outside the Decca override each type holds exactly for its row codes (2 NDB, 3 VOR, 4/5 localizer, 6 glideslope, 7/8/9 markers, 12/13 DME, else Other), and standalone is false exactly for codes 5, 6 and 12 |
| NavParser.FrequencyRule | navparser.h:92-99 | Markers get frequency 0, NDBs field 4 as is, every other type ten times field 4 |
| NavParser.MarkerSkipsFrequencyField | navparser.h:92-95 | On a marker row field 4 is never converted: replacing it by anything leaves the outcome unchanged |
| NavParser.DeccaKeepsFrequencyAndStandalone | navparser.h:114-135 | The Decca override changes the type and no other field |
| NavParser.RangeAndBearingZero | navparser.h:41 | Service range and true bearing are never parsed and stay 0 |
| NavParser.IdentAndName | navparser.h:103-112 | The ident is field 7; the name is fields 8.. joined by single spaces, and tokenising the name gives those fields back |
| NavParser.DeccaOverride | navparser.h:114-135 | A record has a Decca role type if and only if field 8 is "DECCA" and field 9 names that role, both in any case; otherwise the table type stands |
| NavParser.DeccaChannelRowKeepsTableType | navparser.h:52-135 | The row `2 48.6 -1.6 0 0 0 0 LFG DECCA 7B CHERBOURG CHAIN` is an NDB named "DECCA 7B CHERBOURG CHAIN", standalone, frequency 0 |
| NavParser.UpToTerminatorSpec | navparser.h:169 | The data lines are a prefix of the lines free of "99", ending at the first "99" line or the end of input |
| NavParser.ReadRow | navparser.h:170-175 | One pass of the loop over a non-"99" line contributes the row's record when the line is non-empty and the constructor succeeds, nothing otherwise, and leaves the later rows to the rest of the loop |
| NavParser.ParseEarthNavDat | navparser.h:161-180 | The reader returns exactly the records of the data rows from line 2 up to the first "99", in order |
| NavParser.ParsedFromData | navparser.h:166-175 | The reader's index-based loop reads exactly the data lines: same rows required readable, same records |
| NavParser.ReaderReadsDataLines | navparser.h:166-175 | From line 2 on, the reader's result is the records of the data lines after the two header lines |
| NavParser.ParsedAppend | navparser.h:170-175 | Rows are independent: the records of two runs of rows are the records of each, concatenated, so a failing row never stops the rows after it |
| NavParser.ParsedBound | navparser.h:170-175 | Each row yields at most one record |
| NavParser.TerminatorEndsData | navparser.h:166-169 | The two header lines are never parsed, and no line after the first "99" is looked at |
| NavParser.EmptyRowSkipped | navparser.h:171-172 | An empty row, wherever it stands among the data rows, adds no record and changes nothing else |
| AptParser.ParseAptDat | aptparser.h:32-59 | The reader returns exactly the fold of the lines up to the first "99", or the first failing runway field |
| AptParser.Step | aptparser.h:39-53 | One line of the loop: only a runway line can throw; `AirportLine`, `RunwayLine`, `RunwayLineRejected`, `OtherLineIgnored` and `StepCounts` state what each kind of line does |
| AptParser.AirportLine | aptparser.h:46-48 | A "1" line appends one airport with fields 4 and 5 and no runways, keeping the airports before it |
| AptParser.RunwayLine | aptparser.h:49-52 | A "100" line adds exactly one runway (fields 9/10 to 18/19) to the last airport; the count, its ICAO and name, and every earlier airport are unchanged |
| AptParser.RunwayLineRejected | aptparser.h:50-51 | A runway line throws if and only if one of its four coordinates does not convert, field 9 first |
| AptParser.OtherLineIgnored | aptparser.h:46-53 | A line whose field 0 is neither "1" nor "100" as text ("01" and "101" included) leaves the airports unchanged |
| AptParser.StepCounts | aptparser.h:46-52 | One line adds one airport per "1" line and one runway per "100" line |
| AptParser.Counts | aptparser.h:38-55 | A completed read adds one airport per "1" line and one runway per "100" line before the terminator |
| AptParser.AirportCount | aptparser.h:38-55 | A completed read of a file holds as many airports as "1" lines and as many runways as "100" lines before the terminator |
| AptParser.EarlierAirportsKept | aptparser.h:38-55 | Reading on never changes an airport before the last one; the last keeps its ICAO and name and only gains runways at the end of its list |
| AptParser.TerminatorEndsInput | aptparser.h:38 | The lines after the first "99" are never looked at: cutting them off changes neither what is required nor the result |
| AptParser.EmptyLineSkipped | aptparser.h:38-39 | Inserting an empty line anywhere changes neither what the reader requires of the file nor its result |

## Left out

- File handling: opening the file, `is_open`, `getline` and `close` are I/O; both readers take the file's lines. When `earth_nav.dat` cannot be opened the code returns no records, and so does the model on an input with no data lines.
- Logging to `std::cerr` in `ParseEarthNavDat` is output only; the caught exception is modelled as a row that yields no record.
- Floating point: the values `stof` produces for latitude, longitude and runway ends, and the conversion of `int` frequencies to `float`, are not modelled; the fields keep the converted text. An `out_of_range` from `stof` on a value that overflows or underflows a `float` (such as "1e99" or "1e-50") is not modelled, so such a field counts as accepted.
- NavParser.ParseNavAid: `stoi(tokens[4]) * 10` is computed on unbounded integers; a 32-bit overflow of that product (undefined behaviour in C++) is not modelled.
- NavParser.ParseNavAid: the constructor's own code is modelled through the parseutil.h helpers it duplicates: its `istream_iterator` tokenising (navparser.h:43-46) by `Tokenise`, its name loop (navparser.h:105-112, field 8 then " " and each field after it) by `Detokenise` on fields 8 to the end, and its two in-place `std::transform(..., ::toupper)` calls (navparser.h:114-115, 124-126) by `ToUpper`. The code is the same as those helpers' bodies; that the constructor has separate copies of it is not represented.
- `to_upper` is modelled for characters the classic "C" locale knows; the undefined behaviour of `toupper` on negative `char` values is not.
- The `try`/`catch` around `tokens[9]` cannot fire, because `operator[]` does not throw; the model requires field 9 when field 8 is "DECCA" (`NavParser.RoleReadable`) instead of producing an error.
- `angle`, `coord`, the `_deg`/`_rad` literals, `vec2` helpers and the stream output operators in parseutil.h are trigonometric conversions and printing.
- The trivial accessors of `NavAid` are the datatype's fields.
- Decca chain grouping has no code in navparser.h, aptparser.h or parseutil.h, so it is not part of this model.
