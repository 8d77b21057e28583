/**
 * The reader class `LogFile`: a text file opened once, with a cursor made of
 * the recorded line number and byte offset, and line-indexed search and
 * retrieval operations that move the underlying file pointer as they read.
 *
 * The file pointer (`pos`, the index of the next line a raw read returns) is
 * kept apart from the recorded line number (`lineNo`) because the reader lets
 * them drift apart: construction leaves the pointer at end of file with
 * `lineNo == 1`, and several operations read through the file object without
 * touching `lineNo`.
 */
module FileParser {
  import opened Text
  import opened Lines
  import opened Search

  /** The `ValueError`s the reader raises, one per message. */
  datatype Error =
    | LineCountExceeded   // reverse search past the last line
    | LineNoBeyondEnd     // a line range bound past the last line
    | LineNoNegative      // a negative line range bound
    | NegativeScope
    | NegativeUp
    | NegativeDown

  datatype Result<T> = Ok(value: T) | Err(error: Error)

  class LogFile {
    /** The file's lines, each with its newline; the file does not change
        while it is open. */
    const lines: seq<string>
    /** `total_lines`, counted once when the file is opened. */
    const totalLines: nat
    /** The underlying file pointer, as the index of the next line a read
        returns (`|lines|` at end of file). */
    var pos: nat
    /** `line_no`, the recorded line number. */
    var lineNo: int
    /** `offset`, the recorded byte offset. */
    var offset: int

    /** The object invariant: the recorded line number never runs ahead of
        the line after the file pointer, and the recorded offset never lies
        beyond the pointer's byte position. */
    ghost predicate Valid()
      reads this
    {
      && NoEmptyLine(lines)
      && totalLines == |lines|
      && pos <= |lines|
      && 1 <= lineNo <= pos + 1
      && 0 <= offset <= Offset(lines, pos)
    }

    /** `file_obj.tell()`: the byte position of the file pointer. */
    function Tell(): nat
      reads this
      requires pos <= |lines|
    {
      Offset(lines, pos)
    }

    /** Opens a file whose content is `text`: counts its lines by reading to
        the end, which leaves the file pointer at end of file, while the
        recorded cursor says line 1, offset 0. */
    constructor (text: string)
      ensures Valid()
      ensures lines == SplitLines(text) && IsLineSplit(lines) && totalLines == |lines|
      ensures lineNo == 1 && offset == 0 && pos == |lines|
    {
      var ls := SplitLines(text);
      lines := ls;
      lineNo := 1;
      offset := 0;
      var n := 0;
      while LineAt(ls, n) != ""
        invariant n <= |ls|
        decreases |ls| - n
      {
        n := n + 1;
      }
      assert n == |ls|;
      totalLines := n;
      pos := n;
    }

    /** `file_obj.readline()`: the line at the file pointer, or "" at end of
        file; the pointer moves past the line read.  The recorded cursor is
        not touched. */
    method ReadRaw() returns (line: string)
      requires Valid()
      modifies this`pos
      ensures Valid()
      ensures line == LineAt(lines, old(pos))
      ensures line == "" <==> old(pos) == |lines|
      ensures pos == if old(pos) < |lines| then old(pos) + 1 else old(pos)
    {
      line := LineAt(lines, pos);
      if pos < |lines| {
        OffsetMonotone(lines, pos, pos + 1);
        pos := pos + 1;
      }
    }

    /** `goToStart`: rewinds the file and the cursor. */
    method GoToStart()
      requires Valid()
      modifies this
      ensures Valid()
      ensures pos == 0 && lineNo == 1 && offset == 0
    {
      pos := 0;
      lineNo := 1;
      offset := 0;
    }

    /** `goToLine(k)`: rewinds, then reads until the line counter equals `k`.
        For `1 <= k <= totalLines + 1` the pointer ends at the start of line
        `k`; any other `k` is never reached and the scan ends at end of file
        with `lineNo == totalLines + 1`.  Either way the recorded offset is
        the number of bytes before the line the pointer is on. */
    method GoToLine(k: int)
      requires Valid()
      modifies this
      ensures Valid()
      ensures var t := GoToLineTarget(k, totalLines);
        lineNo == t && pos == t - 1 && offset == Offset(lines, t - 1)
    {
      GoToStart();
      var lineCount := 1;
      var eof := false;
      var lastTell := 0;
      while !eof && lineCount != k
        invariant Valid() && lineNo == 1 && offset == 0
        invariant lineCount == pos + 1 && lastTell == Offset(lines, pos)
        invariant eof ==> pos == |lines|
        invariant 1 <= k <= |lines| + 1 ==> lineCount <= k
        decreases |lines| - pos, if eof then 0 else 1
      {
        var line := ReadRaw();
        if line == "" {
          eof := true;
        } else {
          lastTell := Tell();
          lineCount := lineCount + 1;
        }
      }
      lineNo := lineCount;
      offset := lastTell;
    }

    /** `readline(lineno)`: when `lineno` is given and non-zero, first moves
        there with goToLine; then reads the line at the file pointer.  Unless
        that read is at end of file (which gives ""), the recorded line number
        goes up by exactly one. */
    method Readline(lineno: Option<int>) returns (line: string)
      requires Valid()
      modifies this
      ensures Valid()
      ensures var jump := lineno.Some? && lineno.value != 0;
        var t := GoToLineTarget(if jump then lineno.value else 0, totalLines);
        var at := if jump then t - 1 else old(pos);
        var before := if jump then t else old(lineNo);
        && line == LineAt(lines, at)
        && (line == "" <==> at == |lines|)
        && offset == (if jump then Offset(lines, t - 1) else old(offset))
        && (at < |lines| ==> pos == at + 1 && lineNo == before + 1)
        && (at == |lines| ==> pos == at && lineNo == before)
    {
      if lineno.Some? && lineno.value != 0 {
        GoToLine(lineno.value);
      }
      line := ReadRaw();
      if line != "" {
        lineNo := lineNo + 1;
      }
    }

    /** `goToStart()` followed by `readline()`: the first line of the file
        (or "" for an empty file), with the cursor then on line 2. */
    method StartThenRead() returns (l: string)
      requires Valid()
      modifies this
      ensures Valid()
      ensures |lines| > 0 ==> l == lines[0] && lineNo == 2 && pos == 1 && offset == 0
      ensures |lines| == 0 ==> l == "" && lineNo == 1
    {
      GoToStart();
      l := Readline(None);
    }

    /** The `currentLineNo` property. */
    function CurrentLineNo(): (n: int)
      reads this
      requires Valid()
      ensures 1 <= n <= totalLines + 1
    {
      lineNo
    }

    /** One step of searchLine's loop: remembers `tell()`, reads a line and,
        unless at end of file, advances the recorded line number and offset
        to the line after it. */
    method ReadCounted() returns (line: string, prev: nat)
      requires Valid() && lineNo == pos + 1 && offset == Offset(lines, pos)
      modifies this
      ensures Valid() && lineNo == pos + 1 && offset == Offset(lines, pos)
      ensures prev == Offset(lines, old(pos))
      ensures line == LineAt(lines, old(pos))
      ensures old(pos) == |lines| ==> line == "" && pos == old(pos)
      ensures old(pos) < |lines| ==>
        line != "" && pos == old(pos) + 1 && Record(line, lineNo - 1, prev) == RecordAt(lines, old(pos))
    {
      prev := Tell();
      line := ReadRaw();
      if line != "" {
        lineNo := lineNo + 1;
        offset := Tell();
      }
    }

    /** `searchLine(pattern, count, start_from, match)`: moves to `start_from`
        (or the first line), then runs the scan loop: the scan SearchScan
        describes, whose results SearchCountMeaning relates to the matching
        lines.  The cursor is left on the line after the last one read. */
    method SearchLine(pattern: Regex, count: Count, startFrom: int, anchored: bool) returns (output: seq<Record>)
      requires Valid()
      modifies this
      ensures Valid()
      ensures var scan := SearchScan(lines, pattern, anchored, SearchStart(startFrom, totalLines), CountValue(count, totalLines));
        && output == scan.found
        && pos == scan.end && lineNo == scan.end + 1 && offset == Offset(lines, scan.end)
    {
      var c := CountValue(count, totalLines);
      if startFrom > 0 {
        GoToLine(startFrom);
      } else {
        GoToStart();
      }
      output := ScanLines(pattern, c, anchored);
    }

    /** The loop of `searchLine`: from the cursor, reads line by line,
        recording every line that matches, until `c` reaches 0 on a match or
        the file ends. */
    method ScanLines(pattern: Regex, count: int, anchored: bool) returns (output: seq<Record>)
      requires Valid() && lineNo == pos + 1 && offset == Offset(lines, pos)
      modifies this
      ensures Valid()
      ensures var scan := SearchScan(lines, pattern, anchored, old(pos), count);
        && output == scan.found
        && pos == scan.end && lineNo == scan.end + 1 && offset == Offset(lines, scan.end)
    {
      var c := count;
      ghost var scan := SearchScan(lines, pattern, anchored, pos, c);
      var isdone := false;
      var eof := false;
      output := [];
      assert ScanLeaves(lines, pattern, anchored, pos, c, output, scan) by { assert output + scan.found == scan.found; }
      while !eof && !isdone
        invariant Valid()
        invariant lineNo == pos + 1 && offset == Offset(lines, pos)
        invariant !eof && !isdone ==> ScanLeaves(lines, pattern, anchored, pos, c, output, scan)
        invariant eof || isdone ==> output == scan.found && pos == scan.end
        decreases |lines| - pos, if eof || isdone then 0 else 1
      {
        ghost var i0, c0, before := pos, c, output;
        var line, prev := ReadCounted();
        if line == "" {
          eof := true;
        } else {
          var ismatched := Matches(pattern, line, anchored);
          if ismatched {
            c := c - 1;
            output := output + [Record(line, lineNo - 1, prev)];
          }
          if c == 0 {
            isdone := true;
          }
          SearchScanStep(lines, pattern, anchored, i0, c0, before, output, c, scan);
        }
      }
    }

    /** `reverseSearchFromLine(line_no, pattern)`: rewinds, fails when
        `line_no` is past the last line, otherwise buffers lines 1..line_no
        with their numbers and offsets and returns, from `line_no` down to
        line 1, those that match the pattern anywhere.  The recorded cursor
        stays at line 1, offset 0, while the file pointer is left after the
        buffered lines. */
    method ReverseSearchFromLine(lineNum: int, pattern: Regex) returns (r: Result<seq<Record>>)
      requires Valid()
      modifies this
      ensures Valid()
      ensures lineNo == 1 && offset == 0
      ensures lineNum > totalLines ==> r == Err(LineCountExceeded) && pos == 0
      ensures lineNum <= totalLines ==>
        var k := if lineNum < 0 then 0 else lineNum;
        r == Ok(ReverseMatches(lines, pattern, k)) && pos == k
    {
      var output: seq<Record> := [];
      GoToStart();
      if lineNum > totalLines {
        return Err(LineCountExceeded);
      }
      var data := BufferLines(lineNum);
      if |data| > 0 {
        output := ReverseScan(lines, pattern, data);
      }
      r := Ok(output);
    }

    /** The first loop of reverseSearchFromLine: from the start of the file,
        reads lines 1..line_no (stopping early only at end of file), recording
        each with its number and the offset before it.  Only the file pointer
        moves. */
    method BufferLines(lineNum: int) returns (data: seq<Record>)
      requires Valid() && pos == 0 && lineNum <= totalLines
      modifies this`pos
      ensures Valid()
      ensures var k := if lineNum < 0 then 0 else lineNum;
        && pos == k && |data| == k
        && forall j :: 0 <= j < k ==> data[j] == RecordAt(lines, j)
    {
      var count := 1;
      var eof := false;
      data := [];
      ghost var k := if lineNum < 0 then 0 else lineNum;
      while !eof && count <= lineNum
        invariant Valid()
        invariant pos == count - 1 && pos <= k && |data| == pos
        invariant forall j :: 0 <= j < pos ==> data[j] == RecordAt(lines, j)
        invariant eof ==> pos == |lines|
        decreases |lines| - pos, if eof then 0 else 1
      {
        var prev := Tell();
        var line := ReadRaw();
        if line == "" {
          eof := true;
        } else {
          data := data + [Record(line, count, prev)];
          count := count + 1;
        }
      }
    }

    /** The loop the three fetch operations share: `while from <= to`, read a
        line, strip it, append it and count `from` up.  That is one read per
        number from `from` to `to`, "" for each read past the end of file. */
    method ReadStripped(from: int, to: int) returns (out: seq<string>)
      requires Valid()
      modifies this`pos
      ensures Valid()
      ensures var n := if from <= to then to - from + 1 else 0;
        && out == ReadSpan(lines, old(pos), n)
        && pos == if old(pos) + n <= |lines| then old(pos) + n else |lines|
    {
      ghost var i := pos;
      out := [];
      var s := from;
      while s <= to
        invariant Valid() && (from <= to ==> from <= s <= to + 1) && (to < from ==> s == from)
        invariant out == ReadSpan(lines, i, s - from)
        invariant pos == if i + (s - from) <= |lines| then i + (s - from) else |lines|
      {
        var line := ReadRaw();
        assert line == LineAt(lines, i + (s - from));
        out := out + [Strip(line)];
        s := s + 1;
      }
    }

    /** `goToLine(from)` followed by the fetch loop up to `to`, as
        `fetchDataBetweenLineNos` and `fetchDataAroundLine` do it: the cursor
        is left on line `from` while the file pointer moves past the lines
        read.  When `from..to` lies inside the file the result is exactly
        those lines, stripped. */
    method FetchSpan(from: int, to: int) returns (out: seq<string>)
      requires Valid()
      modifies this
      ensures Valid()
      ensures var t := GoToLineTarget(from, totalLines);
        var k := if from <= to then to - from + 1 else 0;
        && out == ReadSpan(lines, t - 1, k)
        && lineNo == t && offset == Offset(lines, t - 1)
        && pos == (if t - 1 + k <= |lines| then t - 1 + k else |lines|)
      ensures 1 <= from <= to + 1 && to <= totalLines ==>
        out == StripAll(lines[from - 1..to]) && lineNo == from && pos == to
    {
      GoToLine(from);
      out := ReadStripped(from, to);
      if 1 <= from <= to + 1 && to <= totalLines {
        ReadSpanInFile(lines, from - 1, to - from + 1);
      }
    }

    /** `searchLine(pattern)` with its defaults (one match, from line 1,
        unanchored): the record of the first matching line, with the cursor
        and the file pointer just after it, or nothing, with both at end of
        file. */
    method SearchFirst(pattern: Regex) returns (output: seq<Record>)
      requires Valid()
      modifies this
      ensures Valid()
      ensures match FirstMatchFrom(lines, pattern, false, 0)
        case Some(n) =>
          output == [RecordAt(lines, n - 1)] && pos == n && lineNo == n + 1 && offset == Offset(lines, n)
        case None =>
          output == [] && pos == |lines| && lineNo == |lines| + 1 && offset == Offset(lines, |lines|)
    {
      output := SearchLine(pattern, N(1), 0, false);
      FirstSearch(lines, pattern);
    }

    /** `fetchDataBetweenLines(start_pattern, end_pattern)`: finds the first
        match of each pattern (both searched from line 1) and, when both exist,
        returns the stripped start line, the lines read after it while the
        counter stays below the end line, and the stripped end line; otherwise
        nothing. */
    method FetchDataBetweenLines(startPattern: Regex, endPattern: Regex) returns (output: seq<string>)
      requires Valid()
      modifies this
      ensures Valid()
      ensures var s, t := FirstMatchFrom(lines, startPattern, false, 0), FirstMatchFrom(lines, endPattern, false, 0);
        && (s.None? || t.None? ==> output == [])
        && (s.Some? && t.Some? ==> output == BetweenLines(lines, s.value, t.value))
        && (s.Some? && t.Some? ==>
              var n, m := s.value, t.value;
              lineNo == n + 1 && offset == Offset(lines, n) && pos == (if m > n + 1 then m - 1 else n))
        && (!(s.Some? && t.Some?) ==>
              var end := if t.Some? then t.value else |lines|;
              lineNo == end + 1 && offset == Offset(lines, end) && pos == end)
    {
      output := [];
      var output1 := SearchFirst(startPattern);
      var output2 := SearchFirst(endPattern);
      if |output1| > 0 && |output2| > 0 {
        output := FetchBetweenFound(output1[0], output2[0]);
      }
    }

    /** The body of fetchDataBetweenLines once both patterns matched, on the
        records `first` and `last` of lines `s` and `t`: the stripped line
        `s`, then, after goToLine(s + 1), one raw read per number from
        `s + 1` to `t - 1`, then the stripped line `t`. */
    method FetchBetweenFound(first: Record, last: Record) returns (output: seq<string>)
      requires Valid()
      requires 1 <= first.lineNo <= |lines| && first == RecordAt(lines, first.lineNo - 1)
      requires 1 <= last.lineNo <= |lines| && last == RecordAt(lines, last.lineNo - 1)
      modifies this
      ensures Valid()
      ensures var s, t := first.lineNo, last.lineNo;
        && output == BetweenLines(lines, s, t)
        && lineNo == s + 1 && offset == Offset(lines, s) && pos == (if t > s + 1 then t - 1 else s)
    {
      var s, t := first.lineNo, last.lineNo;
      output := [Strip(first.text)];
      GoToLine(s + 1);
      var lineStart := lineNo;
      var middle := ReadStripped(lineStart, t - 1);
      output := output + middle;
      output := output + [Strip(last.text)];
      BetweenLinesOfRecords(lines, first, last);
    }

    /** `fetchDataBetweenLineNos(start_line, end_line)`: fails, before moving
        anything, when a bound is past the last line or negative; otherwise
        moves to `start_line` and reads and strips one line per number up to
        `end_line`.  A start of 0 moves to end of file, so every read gives "". */
    method FetchDataBetweenLineNos(startLine: int, endLine: int) returns (r: Result<seq<string>>)
      requires Valid()
      modifies this
      ensures Valid()
      ensures startLine > totalLines || endLine > totalLines ==>
        r == Err(LineNoBeyondEnd) && unchanged(this)
      ensures startLine <= totalLines && endLine <= totalLines && (startLine < 0 || endLine < 0) ==>
        r == Err(LineNoNegative) && unchanged(this)
      ensures 0 <= startLine <= totalLines && 0 <= endLine <= totalLines ==>
        var t := GoToLineTarget(startLine, totalLines);
        var k := if startLine <= endLine then endLine - startLine + 1 else 0;
        && r == Ok(ReadSpan(lines, t - 1, k))
        && lineNo == t && offset == Offset(lines, t - 1)
        && pos == (if t - 1 + k <= |lines| then t - 1 + k else |lines|)
      ensures 1 <= startLine <= endLine <= totalLines ==>
        r == Ok(StripAll(lines[startLine - 1..endLine])) && lineNo == startLine
      ensures 0 <= endLine < startLine <= totalLines ==> r == Ok([]) && lineNo == startLine
      ensures startLine == 0 && 0 <= endLine <= totalLines ==>
        r.Ok? && |r.value| == endLine + 1 && forall j :: 0 <= j < |r.value| ==> r.value[j] == ""
    {
      if startLine > totalLines || endLine > totalLines {
        return Err(LineNoBeyondEnd);
      }
      if startLine < 0 || endLine < 0 {
        return Err(LineNoNegative);
      }
      var output := FetchSpan(startLine, endLine);
      if startLine == 0 {
        forall j | 0 <= j < |output| ensures output[j] == "" {
          ReadSpanAt(lines, |lines|, |output|, j);
        }
      }
      r := Ok(output);
    }

    /** `fetchDataAroundLine(pattern, scope, up, down)`: fails, before
        searching, on a negative scope, up or down; otherwise finds the first
        line matching the pattern and returns the stripped lines of the window
        from `up` lines above it to `down` lines below it, clamped to the
        file, where an absent or zero `up` or `down` falls back to `scope`. */
    method FetchDataAroundLine(pattern: Regex, scope: int, up: Option<int>, down: Option<int>) returns (r: Result<seq<string>>)
      requires Valid()
      modifies this
      ensures Valid()
      ensures scope < 0 ==> r == Err(NegativeScope) && unchanged(this)
      ensures scope >= 0 && up.Some? && up.value < 0 ==> r == Err(NegativeUp) && unchanged(this)
      ensures scope >= 0 && !(up.Some? && up.value < 0) && down.Some? && down.value < 0 ==>
        r == Err(NegativeDown) && unchanged(this)
      ensures scope >= 0 && !(up.Some? && up.value < 0) && !(down.Some? && down.value < 0) ==>
        match FirstMatchFrom(lines, pattern, false, 0)
        case None =>
          r == Ok([]) && pos == |lines| && lineNo == |lines| + 1 && offset == Offset(lines, |lines|)
        case Some(m) =>
          var w := Window(m, SideScope(up, scope), SideScope(down, scope), totalLines);
          && r == Ok(StripAll(lines[w.0 - 1..w.1]))
          && lineNo == w.0 && pos == w.1 && offset == Offset(lines, w.0 - 1)
    {
      if scope < 0 {
        return Err(NegativeScope);
      }
      if up.Some? && up.value != 0 && up.value < 0 {
        return Err(NegativeUp);
      }
      if down.Some? && down.value != 0 && down.value < 0 {
        return Err(NegativeDown);
      }
      var scopeUp := SideScope(up, scope);
      var scopeDown := SideScope(down, scope);
      var output := FetchAroundFirstMatch(pattern, scopeUp, scopeDown);
      r := Ok(output);
    }

    /** The part of fetchDataAroundLine after the arguments are checked: with
        the scopes above and below already resolved, finds the first match
        and reads the clamped window around it. */
    method FetchAroundFirstMatch(pattern: Regex, scopeUp: int, scopeDown: int) returns (output: seq<string>)
      requires Valid() && scopeUp >= 0 && scopeDown >= 0
      modifies this
      ensures Valid()
      ensures match FirstMatchFrom(lines, pattern, false, 0)
        case None =>
          output == [] && pos == |lines| && lineNo == |lines| + 1 && offset == Offset(lines, |lines|)
        case Some(m) =>
          var w := Window(m, scopeUp, scopeDown, totalLines);
          && output == StripAll(lines[w.0 - 1..w.1])
          && lineNo == w.0 && pos == w.1 && offset == Offset(lines, w.0 - 1)
    {
      output := [];
      ghost var first := FirstMatchFrom(lines, pattern, false, 0);
      var searchOutput := SearchFirst(pattern);
      if |searchOutput| > 0 {
        assert first == Some(searchOutput[0].lineNo);
        var w := Window(searchOutput[0].lineNo, scopeUp, scopeDown, totalLines);
        var startLine, endLine := w.0, w.1;
        output := FetchSpan(startLine, endLine);
      } else {
        assert first == None;
      }
    }
  }
}
