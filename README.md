# LogFile: line-indexed search over a text file

This project models `LogFile` from `FileParser.py` in Dafny. `LogFile` is a
reader that opens a text file once, counts its lines, and offers the following
operations:

- forward search for lines matching a regular expression (`searchLine`);
- reverse search from a given line (`reverseSearchFromLine`);
- retrieval of a line range (`fetchDataBetweenLineNos`);
- retrieval of the span between two matching lines (`fetchDataBetweenLines`);
- retrieval of a context window around a match (`fetchDataAroundLine`);
- absolute repositioning (`goToStart`, `goToLine`);
- single reads (`readline`) and the `currentLineNo` property.

The file is an immutable sequence of lines. Each line keeps its newline, as
iterating over a Python file object yields it. The text is cut into lines by
`Lines.SplitLines`. `Lines.SplitConcat` proves that this is exactly the inverse
of joining the lines. The byte offset of a line is the total length of the
lines before it (`Lines.Offset`), which is what `tell()` reports once those
lines have been read.

The class `FileParser.LogFile` holds the reader's mutable state:

- `pos`: the hidden position of the underlying file pointer, as the index of
  the next line a raw `readline()` returns;
- `lineNo`: the recorded `line_no`;
- `offset`: the recorded `offset`;
- `totalLines`: the line count, fixed when the file is opened.

`pos` and `lineNo` are kept apart because the code lets them drift:

- the constructor counts lines by reading to the end of the file and leaves
  the pointer there, yet records line 1;
- the buffering loop of `reverseSearchFromLine` reads without touching
  `line_no`;
- the three fetch operations call `file_obj.readline()` directly.

Every method states its whole new state. Its result is tied to a
specification function, mostly in module `Search`:

- `SearchScan`: the `searchLine` loop;
- `AllMatches` and `FirstMatchFrom`: which lines match;
- `ReverseMatches`: the result of a reverse search;
- `ReadSpan`: a run of raw reads, stripped;
- `Window`: the clamped context window;
- `BetweenLines`: the span between two matches;
- `Lines.LineAt`: what a single raw `readline()` returns (`ReadRaw`,
  `Readline`);
- `Text.StripAll`: a list of lines, stripped (`FetchSpan` and the range and
  window fetches).

`GoToStart` and `GoToLine` return nothing; their contracts state the cursor
and the file pointer they leave. The lemmas about the specification functions
state what the source promises. `StartThenRead` shows that `goToStart()`
followed by `readline()` returns the first line of the file. Module `Text`
models Python 2's `str.strip()`, which removes ASCII whitespace from both ends.

Behaviour of the code worth knowing:

- After construction the file pointer is at end of file. The line count at
  `FileParser.py:38` consumes the file and nothing seeks back, while
  `line_no` is set to 1 at `FileParser.py:36`. A `readline()` straight after
  opening therefore returns `""`, as the constructor's and `Readline`'s
  contracts together show.
- In `fetchDataAroundLine`, the docstring at `FileParser.py:167-168` says a
  given `up` or `down` is the number of lines fetched on that side. The
  expression `up if up else scope` at `FileParser.py:184-185` makes an
  explicit `up = 0` fall back to `scope`; the same holds for `down`. The model
  follows the expression (`Search.SideScope`).
- In `fetchDataBetweenLineNos`, the message "must be non zero" at
  `FileParser.py:155` sits on a `< 0` test at `FileParser.py:154`, so a bound
  of 0 is accepted. `goToLine(0)` then runs to end of file, and
  `fetchDataBetweenLineNos(0, e)` returns `e + 1` empty strings.
- `reverseSearchFromLine` resets the cursor at `FileParser.py:96` before it
  checks `line_no` at `FileParser.py:97`, so even the error leaves the cursor
  at line 1, offset 0.
- `searchLine` tests `count == 0` only after a line has been read
  (`FileParser.py:76-79`), and the model covers every integer count. A
  negative count never reaches 0, so every match is returned
  (`Search.SearchNegativeCountTakesAll`). A count of 0 stops after the first
  line unless that line matches, and then returns every match
  (`Search.SearchZeroCount`).

## Model

| member | source | states |
|---|---|---|
| `FileParser.LogFile.constructor` | FileParser.py:33-38 | the lines are the split of the file's text, `totalLines` is their number, `lineNo == 1`, `offset == 0`, and the file pointer is at end of file after the counting pass |
| `FileParser.LogFile.GoToStart` | FileParser.py:200-207 | pointer, line number and offset all back at the start of the file |
| `FileParser.LogFile.GoToLine` | FileParser.py:209-229 | for `1 <= k <= totalLines + 1`: `lineNo == k`, pointer at the start of line `k`, offset = bytes before line `k`; any other `k` ends at end of file with `lineNo == totalLines + 1` |
| `FileParser.LogFile.Readline` | FileParser.py:231-237 | with a non-zero `lineno`, first repositions as goToLine; then returns the line at the pointer and raises `lineNo` by exactly one, or returns `""` at end of file with `lineNo` unchanged |
| `FileParser.LogFile.StartThenRead` | FileParser.py:200-237 | `goToStart()` then `readline()` returns the first line, leaving the cursor on line 2 with offset 0; on an empty file it returns `""` |
| `FileParser.LogFile.CurrentLineNo` | FileParser.py:239-241 | the recorded line number, which lies in `1..totalLines + 1` |
| `FileParser.LogFile.ReadRaw` | FileParser.py:65-66 | a raw `readline()`: the line at the pointer, `""` exactly at end of file; only the pointer moves |
| `FileParser.LogFile.ReadCounted` | FileParser.py:64-70 | one step of the search loop: `prev` is the offset before the line read, and the line read with its number and `prev` is that line's match record |
| `FileParser.LogFile.SearchLine` | FileParser.py:42-81 | result and final cursor are those of `SearchScan` started at `start_from` (line 1 when `start_from <= 0`) with `'max'` meaning `totalLines` |
| `FileParser.LogFile.ScanLines` | FileParser.py:59-81 | the search loop computes exactly `SearchScan` from the pointer, and leaves the cursor on the line after the last one read |
| `FileParser.LogFile.SearchFirst` | FileParser.py:127-128 | `searchLine(p)` with its defaults gives the record of the first matching line and stops just after it, or nothing and stops at end of file |
| `FileParser.LogFile.ReverseSearchFromLine` | FileParser.py:83-115 | error when `line_no > totalLines`; otherwise exactly `ReverseMatches` of lines `1..line_no`; either way `lineNo == 1`, `offset == 0` |
| `FileParser.LogFile.BufferLines` | FileParser.py:92-106 | buffers the records of lines `1..line_no`, each with its number and the offset before it |
| `Search.ReverseScan` | FileParser.py:107-113 | walking the buffer from its end keeps exactly the matching records, from the last line down to the first |
| `FileParser.LogFile.ReadStripped` | FileParser.py:158-160 | the fetch loop makes one raw read per number in `from..to`, stripped, giving `""` past end of file |
| `FileParser.LogFile.FetchSpan` | FileParser.py:156-160 | goToLine then the fetch loop: inside the file, exactly the stripped lines `from..to`, with `lineNo == from` |
| `FileParser.LogFile.FetchDataBetweenLines` | FileParser.py:117-139 | empty when either pattern has no match; otherwise the span `BetweenLines` of the two first matches, with the final cursor stated in both cases |
| `FileParser.LogFile.FetchBetweenFound` | FileParser.py:129-137 | with both first matches found, the output is the stripped start line, the reads strictly between, and the stripped end line |
| `FileParser.LogFile.FetchDataBetweenLineNos` | FileParser.py:141-161 | errors (state unchanged) for a bound past the last line or a negative bound; for `1 <= s <= e <= totalLines`, exactly the `e - s + 1` stripped lines `s..e`; `[]` for `s > e`; `lineNo == s` whenever `s >= 1`; a start of 0 gives `e + 1` empty strings |
| `FileParser.LogFile.FetchDataAroundLine` | FileParser.py:163-198 | errors (state unchanged) for a negative `scope` or a negative `up` or `down`, before searching; `[]` when nothing matches; otherwise the stripped lines of the clamped window around the first match |
| `FileParser.LogFile.FetchAroundFirstMatch` | FileParser.py:182-198 | the window part of fetchDataAroundLine with resolved scopes |
| `Search.GoToLineTarget` | FileParser.py:220-228 | the line goToLine stops on: `k` when reachable, otherwise `totalLines + 1` |
| `Search.SearchStart` | FileParser.py:55-58 | the index a search starts from: `start_from - 1` inside the file, the first line when `start_from <= 0` |
| `Search.SearchFindsFirstMatches` | FileParser.py:63-79 | for `count >= 1`: at most `count` records, strictly increasing line numbers, each the record of a matching line at or after the start, and all matching lines when fewer than `count` come back |
| `Search.SearchTakesFirstMatches` | FileParser.py:63-79 | for `count >= 1` the search returns exactly the first `count` matches at or after the start |
| `Search.SearchNegativeCountTakesAll` | FileParser.py:76-79 | a negative count never reaches 0: every match is returned and the scan ends at end of file |
| `Search.SearchZeroCount` | FileParser.py:76-79 | a count of 0 returns nothing unless the first line read matches, and then every match |
| `Search.SearchMaxTakesAll` | FileParser.py:54 | `count='max'` returns every match from the start line on |
| `Search.SearchCountMeaning` | FileParser.py:54-79 | a count `>= 1` takes that many first matches; `'max'` or a negative count takes all |
| `Search.AllMatchesSound` | FileParser.py:71-77 | every record of `AllMatches` belongs to a line that matches, with its number and preceding offset |
| `Search.AllMatchesIncreasing` | FileParser.py:63-77 | the records of `AllMatches` are in strictly increasing line order |
| `Search.AllMatchesComplete` | FileParser.py:63-77 | a line at or after the start is in `AllMatches` exactly when it matches |
| `Search.SearchScanStep` | FileParser.py:63-79 | one iteration of the search loop keeps the rest of the scan ahead of it |
| `Search.FirstMatchFromIsFirst` | FileParser.py:127-128 | the line `FirstMatchFrom` names matches and no earlier one does; `None` only when no line matches |
| `Search.SearchOneIsFirstMatch` | FileParser.py:63-79 | a search with count 1 finds the first matching line and stops just after it |
| `Search.FirstSearch` | FileParser.py:127-128 | `searchLine(p)` from line 1 returns the first unanchored match |
| `Search.ReverseMatchesSound` | FileParser.py:107-113 | every reverse-search record belongs to a matching line among `1..line_no` |
| `Search.ReverseMatchesDecreasing` | FileParser.py:109-113 | reverse-search records are in strictly decreasing line order |
| `Search.ReverseMatchesComplete` | FileParser.py:107-113 | a line among `1..line_no` is in the result exactly when it matches |
| `Search.ReverseMatchesStep` | FileParser.py:109-113 | one backward step keeps the rest of the reverse result ahead of it |
| `Search.ReadSpanAt` | FileParser.py:158-159 | read `j` of a run is the stripped line `i + j`, or `""` past end of file |
| `Search.ReadSpanInFile` | FileParser.py:158-160 | inside the file, a run of reads is exactly the stripped lines of that span |
| `Search.Window` | FileParser.py:184-192 | the clamped window `[max(1, m - up), min(total, m + down)]` always contains the matched line `m` and stays inside the file |
| `Search.BetweenLinesShape` | FileParser.py:129-137 | the span holds `max(2, t - s + 1)` strings, first is line `s` stripped, last is line `t` stripped, and it is lines `s..t` stripped when `t > s` |
| `Text.TrimLeftSpec` | FileParser.py:130 | stripping the front removes only whitespace, and the result does not start with whitespace |
| `Text.TrimRightSpec` | FileParser.py:130 | stripping the back removes only whitespace, and the result does not end with whitespace |
| `Text.StripIsInnerSlice` | FileParser.py:130 | `strip()` yields the inner slice between leading and trailing whitespace, with no whitespace at either end |
| `Text.StripAllAt` | FileParser.py:135 | element `j` of the stripped list is the strip of line `j` |
| `Text.StripAllAppend` | FileParser.py:135 | stripping a list of lines part by part is stripping it whole |
| `Lines.SplitLines` | FileParser.py:38 | the lines iteration yields: non-empty, newline only at the end, every line but the last ends with one, and joined they give back the text |
| `Lines.SplitConcat` | FileParser.py:38 | splitting the text of any such line list gives the same lines back |
| `Lines.OffsetMonotone` | FileParser.py:64-70 | the offset before a line grows with the line number |
| `Lines.OffsetLocatesLine` | FileParser.py:64-70 | the offsets before line `k` and line `k + 1` bracket exactly line `k` in the file's text |
| `Lines.OffsetIsPrefixLength` | FileParser.py:225 | the offset of a line is the length of the text before it |

## Left out

- Opening the file, the exception that wraps a failed open
  (`FileParser.py:34-40`) and closing it in `__del__` (`FileParser.py:243-245`).
  These are operating-system I/O and object lifetime. The constructor takes the
  file's text instead of a path.
- The regular-expression engine. A pattern is modelled as a total function
  from a line and an anchoring flag to a boolean, applied by `Search.Matches`.
  The flag stands for `re.match` (anchored) versus `re.search` (anywhere).
  Compilation errors of a pattern are not modelled.
- Text-mode decoding and platform newline translation. `tell()` is taken to be
  the total number of characters of the lines read so far.
- The `'max'` string sentinel is the datatype `Search.Count = Max | N(n)`.
  A count of any other type is not modelled. Python 2's `xrange` is written as
  an index loop.
- CurrentLineNo: the property returns `line_no` as it is;
  its contract states only the bound the object invariant gives.
