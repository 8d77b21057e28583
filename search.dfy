/**
 * The specification side of the reader's queries: what a forward scan, a
 * reverse scan and a run of raw reads produce over the file's lines, and the
 * properties of those results.  Line numbers are 1-based as in the reader;
 * sequence indices are 0-based, so line number `n` is index `n - 1`.
 */
module Search {
  import opened Text
  import opened Lines

  datatype Option<T> = None | Some(value: T)

  /** A compiled regular expression.  Applied to a line and to whether the
      match must start at the beginning of the line (`re.match`) or may start
      anywhere in it (`re.search`), it says whether the line matches. */
  type Regex = (string, bool) -> bool

  predicate Matches(pattern: Regex, line: string, anchored: bool) {
    pattern(line, anchored)
  }

  /** A match record: the line as read, its line number, and the byte offset
      just before it. */
  datatype Record = Record(text: string, lineNo: int, prev: int)

  /** The record for line index `i`. */
  function RecordAt(ls: seq<string>, i: nat): Record
    requires i < |ls|
  {
    Record(ls[i], i + 1, Offset(ls, i))
  }

  /** The `count` argument of a forward search: the sentinel `'max'` or a number. */
  datatype Count = Max | N(n: int)

  /** `'max'` stands for the total number of lines. */
  function CountValue(count: Count, total: nat): int {
    match count
    case Max => total
    case N(n) => n
  }

  /** The line number `goToLine(k)` ends on: `k` itself for `1 <= k <= total + 1`;
      any other `k` is never reached, so the scan runs to the end of the file. */
  function GoToLineTarget(k: int, total: nat): (t: nat)
    ensures 1 <= t <= total + 1
    ensures 1 <= k <= total + 1 ==> t == k
    ensures !(1 <= k <= total + 1) ==> t == total + 1
  {
    if 1 <= k <= total + 1 then k else total + 1
  }

  /** Where a forward search starts reading: the line `start_from` when it is
      positive, otherwise the first line. */
  function SearchStart(startFrom: int, total: nat): (i: nat)
    ensures i <= total
    ensures 1 <= startFrom <= total ==> i == startFrom - 1
    ensures startFrom <= 0 ==> i == 0
  {
    if startFrom > 0 then GoToLineTarget(startFrom, total) - 1 else 0
  }

  /** The first `c` elements of `s`, or all of them when there are fewer. */
  function Take<T>(s: seq<T>, c: nat): seq<T> {
    if c >= |s| then s else s[..c]
  }

  /** Reference definition: every line from index `i` on that matches, as
      records, in file order. */
  function AllMatches(ls: seq<string>, p: Regex, anchored: bool, i: nat): seq<Record>
    requires i <= |ls|
    decreases |ls| - i
  {
    if i == |ls| then []
    else (if Matches(p, ls[i], anchored) then [RecordAt(ls, i)] else []) + AllMatches(ls, p, anchored, i + 1)
  }

  /** `x` is the record of a line numbered in `lo + 1..hi` that matches. */
  ghost predicate IsMatchIn(ls: seq<string>, p: Regex, anchored: bool, lo: nat, hi: nat, x: Record)
    requires hi <= |ls|
  {
    lo < x.lineNo <= hi && x == RecordAt(ls, x.lineNo - 1) && Matches(p, x.text, anchored)
  }

  ghost predicate Increasing(r: seq<Record>) {
    forall q1, q2 :: 0 <= q1 < q2 < |r| ==> r[q1].lineNo < r[q2].lineNo
  }

  ghost predicate Decreasing(r: seq<Record>) {
    forall q1, q2 :: 0 <= q1 < q2 < |r| ==> r[q1].lineNo > r[q2].lineNo
  }

  /** Every element of AllMatches is the record of a matching line after
      index `i`. */
  lemma {:induction false} AllMatchesSound(ls: seq<string>, p: Regex, anchored: bool, i: nat)
    requires i <= |ls|
    ensures var r := AllMatches(ls, p, anchored, i);
      && |r| <= |ls| - i
      && (forall q :: 0 <= q < |r| ==> IsMatchIn(ls, p, anchored, i, |ls|, r[q]))
    decreases |ls| - i
  {
    if i < |ls| {
      AllMatchesSound(ls, p, anchored, i + 1);
      var rest := AllMatches(ls, p, anchored, i + 1);
      var r := AllMatches(ls, p, anchored, i);
      var d := if Matches(p, ls[i], anchored) then 1 else 0;
      assert r == (if d == 1 then [RecordAt(ls, i)] else []) + rest;
      forall q | d <= q < |r| ensures IsMatchIn(ls, p, anchored, i, |ls|, r[q]) {
        assert r[q] == rest[q - d];
        assert IsMatchIn(ls, p, anchored, i + 1, |ls|, rest[q - d]);
      }
    }
  }

  /** The records of AllMatches come in strictly increasing line order. */
  lemma {:induction false} AllMatchesIncreasing(ls: seq<string>, p: Regex, anchored: bool, i: nat)
    requires i <= |ls|
    ensures Increasing(AllMatches(ls, p, anchored, i))
    decreases |ls| - i
  {
    if i < |ls| {
      AllMatchesIncreasing(ls, p, anchored, i + 1);
      AllMatchesSound(ls, p, anchored, i + 1);
      var rest := AllMatches(ls, p, anchored, i + 1);
      var r := AllMatches(ls, p, anchored, i);
      var d := if Matches(p, ls[i], anchored) then 1 else 0;
      assert r == (if d == 1 then [RecordAt(ls, i)] else []) + rest;
      forall q1, q2 | 0 <= q1 < q2 < |r| ensures r[q1].lineNo < r[q2].lineNo {
        assert r[q2] == rest[q2 - d];
        assert IsMatchIn(ls, p, anchored, i + 1, |ls|, rest[q2 - d]);
        if q1 >= d {
          assert r[q1] == rest[q1 - d];
        }
      }
    }
  }

  /** The record of line index `i` is not among the matches of the lines
      after it. */
  lemma AllMatchesOmitEarlier(ls: seq<string>, p: Regex, anchored: bool, i: nat)
    requires i < |ls|
    ensures RecordAt(ls, i) !in AllMatches(ls, p, anchored, i + 1)
  {
    var r := AllMatches(ls, p, anchored, i + 1);
    AllMatchesSound(ls, p, anchored, i + 1);
    forall q | 0 <= q < |r| ensures r[q] != RecordAt(ls, i) {
      assert IsMatchIn(ls, p, anchored, i + 1, |ls|, r[q]);
    }
  }

  /** A line from index `i` on has its record in AllMatches exactly when it
      matches. */
  lemma {:induction false} AllMatchesComplete(ls: seq<string>, p: Regex, anchored: bool, i: nat)
    requires i <= |ls|
    ensures forall k {:trigger RecordAt(ls, k)} :: i <= k < |ls| ==>
      (RecordAt(ls, k) in AllMatches(ls, p, anchored, i) <==> Matches(p, ls[k], anchored))
    decreases |ls| - i
  {
    if i < |ls| {
      AllMatchesComplete(ls, p, anchored, i + 1);
      AllMatchesOmitEarlier(ls, p, anchored, i);
      var here := if Matches(p, ls[i], anchored) then [RecordAt(ls, i)] else [];
      assert AllMatches(ls, p, anchored, i) == here + AllMatches(ls, p, anchored, i + 1);
      forall k | i < k < |ls| ensures RecordAt(ls, k) !in here { }
    }
  }

  /** The outcome of a forward scan: the records collected and the line index
      the file pointer is left at. */
  datatype Scan = Scan(found: seq<Record>, end: nat)

  /** The loop of `searchLine` from line index `i` with `c` matches still
      wanted: each line read is tested, a hit decrements `c`, and the scan
      stops after the line on which `c` becomes 0, or at the end of the file. */
  function SearchScan(ls: seq<string>, p: Regex, anchored: bool, i: nat, c: int): (s: Scan)
    requires i <= |ls|
    ensures i <= s.end <= |ls|
    decreases |ls| - i
  {
    if i == |ls| then Scan([], i)
    else
      var hit := Matches(p, ls[i], anchored);
      var left := if hit then c - 1 else c;
      var here := if hit then [RecordAt(ls, i)] else [];
      if left == 0 then Scan(here, i + 1)
      else
        var rest := SearchScan(ls, p, anchored, i + 1, left);
        Scan(here + rest.found, rest.end)
  }

  /** The scan from line index `i` with `c` matches still wanted, appended to
      the records `done` already collected, gives the whole scan `whole`. */
  ghost predicate ScanLeaves(ls: seq<string>, p: Regex, anchored: bool, i: nat, c: int,
                             done: seq<Record>, whole: Scan)
    requires i <= |ls|
  {
    var rest := SearchScan(ls, p, anchored, i, c);
    done + rest.found == whole.found && rest.end == whole.end
  }

  /** One iteration of the scan: reading line `i` with `c` matches still
      wanted appends that line's record when it matches (giving `after`) and
      decrements the count (giving `left`); the scan then either is finished
      (the count reached 0) or continues from line `i + 1`. */
  lemma SearchScanStep(ls: seq<string>, p: Regex, anchored: bool, i: nat, c: int,
                       before: seq<Record>, after: seq<Record>, left: int, whole: Scan)
    requires i < |ls| && ScanLeaves(ls, p, anchored, i, c, before, whole)
    requires after == before + (if Matches(p, ls[i], anchored) then [RecordAt(ls, i)] else [])
    requires left == if Matches(p, ls[i], anchored) then c - 1 else c
    ensures left == 0 ==> after == whole.found && whole.end == i + 1
    ensures left != 0 ==> ScanLeaves(ls, p, anchored, i + 1, left, after, whole)
  {
    var here := if Matches(p, ls[i], anchored) then [RecordAt(ls, i)] else [];
    if left != 0 {
      var rest := SearchScan(ls, p, anchored, i + 1, left);
      assert SearchScan(ls, p, anchored, i, c) == Scan(here + rest.found, rest.end);
      assert before + here + rest.found == before + (here + rest.found);
    }
  }

  /** Taking `c >= 1` elements of a list with head `x` takes `x` and `c - 1`
      elements of the tail. */
  lemma TakeCons<T>(x: T, rest: seq<T>, c: nat)
    requires c >= 1
    ensures Take([x] + rest, c) == [x] + Take(rest, c - 1)
  {
    if c - 1 < |rest| {
      assert ([x] + rest)[..c] == [x] + rest[..c - 1];
    }
  }

  /** With a positive count the scan returns the first `c` matching lines at
      or after index `i` (all of them if there are fewer). */
  lemma {:induction false} SearchTakesFirstMatches(ls: seq<string>, p: Regex, anchored: bool, i: nat, c: int)
    requires i <= |ls| && c >= 1
    ensures SearchScan(ls, p, anchored, i, c).found == Take(AllMatches(ls, p, anchored, i), c)
    decreases |ls| - i
  {
    if i < |ls| {
      var rest := AllMatches(ls, p, anchored, i + 1);
      if !Matches(p, ls[i], anchored) {
        assert AllMatches(ls, p, anchored, i) == rest;
        assert SearchScan(ls, p, anchored, i, c).found == SearchScan(ls, p, anchored, i + 1, c).found;
        SearchTakesFirstMatches(ls, p, anchored, i + 1, c);
      } else {
        var x := RecordAt(ls, i);
        assert AllMatches(ls, p, anchored, i) == [x] + rest;
        TakeCons(x, rest, c);
        if c == 1 {
          assert SearchScan(ls, p, anchored, i, c).found == [x];
        } else {
          assert SearchScan(ls, p, anchored, i, c).found == [x] + SearchScan(ls, p, anchored, i + 1, c - 1).found;
          SearchTakesFirstMatches(ls, p, anchored, i + 1, c - 1);
        }
      }
    }
  }

  /** The records `searchLine` returns for a count `c >= 1`: at most `c`, in
      strictly increasing line order, each the record of a matching line at
      or after index `i`; and when fewer than `c` come back, every matching
      line from index `i` on is among them. */
  lemma SearchFindsFirstMatches(ls: seq<string>, p: Regex, anchored: bool, i: nat, c: int)
    requires i <= |ls| && c >= 1
    ensures var found := SearchScan(ls, p, anchored, i, c).found;
      && |found| <= c
      && Increasing(found)
      && (forall q :: 0 <= q < |found| ==> IsMatchIn(ls, p, anchored, i, |ls|, found[q]))
      && (|found| < c ==> forall k :: i <= k < |ls| && Matches(p, ls[k], anchored) ==> RecordAt(ls, k) in found)
  {
    var all := AllMatches(ls, p, anchored, i);
    SearchTakesFirstMatches(ls, p, anchored, i, c);
    AllMatchesSound(ls, p, anchored, i);
    AllMatchesIncreasing(ls, p, anchored, i);
    AllMatchesComplete(ls, p, anchored, i);
    var found := Take(all, c);
    assert forall q :: 0 <= q < |found| ==> found[q] == all[q];
  }

  /** A negative count never reaches 0, so the scan returns every matching
      line from index `i` on and runs to the end of the file. */
  lemma {:induction false} SearchNegativeCountTakesAll(ls: seq<string>, p: Regex, anchored: bool, i: nat, c: int)
    requires i <= |ls| && c < 0
    ensures SearchScan(ls, p, anchored, i, c) == Scan(AllMatches(ls, p, anchored, i), |ls|)
    decreases |ls| - i
  {
    if i < |ls| {
      var left := if Matches(p, ls[i], anchored) then c - 1 else c;
      SearchNegativeCountTakesAll(ls, p, anchored, i + 1, left);
    }
  }

  /** A count of 0 is tested only after the first line: the scan returns
      nothing when that line does not match, and every match when it does
      (the count then goes negative and never comes back to 0). */
  lemma SearchZeroCount(ls: seq<string>, p: Regex, anchored: bool, i: nat)
    requires i <= |ls|
    ensures SearchScan(ls, p, anchored, i, 0).found ==
      if i < |ls| && Matches(p, ls[i], anchored) then AllMatches(ls, p, anchored, i) else []
  {
    if i < |ls| && Matches(p, ls[i], anchored) {
      SearchNegativeCountTakesAll(ls, p, anchored, i + 1, -1);
    }
  }

  /** `count='max'` (the number of lines) returns every match from index `i` on. */
  lemma SearchMaxTakesAll(ls: seq<string>, p: Regex, anchored: bool, i: nat)
    requires i <= |ls|
    ensures SearchScan(ls, p, anchored, i, CountValue(Max, |ls|)).found == AllMatches(ls, p, anchored, i)
  {
    AllMatchesSound(ls, p, anchored, i);
    if |ls| >= 1 {
      SearchTakesFirstMatches(ls, p, anchored, i, |ls|);
    }
  }

  /** What a count asks of the search: a count of at least one gives the first
      that many matches, `'max'` or a negative count gives every match. */
  lemma SearchCountMeaning(ls: seq<string>, p: Regex, anchored: bool, i: nat, count: Count)
    requires i <= |ls|
    ensures var found := SearchScan(ls, p, anchored, i, CountValue(count, |ls|)).found;
      var all := AllMatches(ls, p, anchored, i);
      && (count.N? && count.n >= 1 ==> found == Take(all, count.n))
      && (count.Max? || (count.N? && count.n < 0) ==> found == all)
  {
    match count
    case Max => SearchMaxTakesAll(ls, p, anchored, i);
    case N(n) =>
      if n >= 1 {
        SearchTakesFirstMatches(ls, p, anchored, i, n);
      } else if n < 0 {
        SearchNegativeCountTakesAll(ls, p, anchored, i, n);
      }
  }

  /** The line number of the first line at or after index `i` that matches. */
  function FirstMatchFrom(ls: seq<string>, p: Regex, anchored: bool, i: nat): (m: Option<nat>)
    requires i <= |ls|
    ensures m.Some? ==> i < m.value <= |ls|
    decreases |ls| - i
  {
    if i == |ls| then None
    else if Matches(p, ls[i], anchored) then Some(i + 1)
    else FirstMatchFrom(ls, p, anchored, i + 1)
  }

  /** FirstMatchFrom finds the first matching line: the line it names
      matches and none before it from index `i` on does; when it finds
      nothing, no line from index `i` on matches. */
  lemma {:induction false} FirstMatchFromIsFirst(ls: seq<string>, p: Regex, anchored: bool, i: nat)
    requires i <= |ls|
    ensures var m := FirstMatchFrom(ls, p, anchored, i);
      && (m.Some? ==> Matches(p, ls[m.value - 1], anchored))
      && (m.Some? ==> forall k :: i <= k < m.value - 1 ==> !Matches(p, ls[k], anchored))
      && (m.None? ==> forall k :: i <= k < |ls| ==> !Matches(p, ls[k], anchored))
    decreases |ls| - i
  {
    if i < |ls| && !Matches(p, ls[i], anchored) {
      FirstMatchFromIsFirst(ls, p, anchored, i + 1);
    }
  }

  /** A search for one match (the default count) from index `i` finds the
      first matching line and leaves the pointer just after it, or finds
      nothing and leaves the pointer at the end of the file. */
  lemma {:induction false} SearchOneIsFirstMatch(ls: seq<string>, p: Regex, anchored: bool, i: nat)
    requires i <= |ls|
    ensures SearchScan(ls, p, anchored, i, 1) ==
      match FirstMatchFrom(ls, p, anchored, i)
      case Some(n) => Scan([RecordAt(ls, n - 1)], n)
      case None => Scan([], |ls|)
    decreases |ls| - i
  {
    if i < |ls| && !Matches(p, ls[i], anchored) {
      SearchOneIsFirstMatch(ls, p, anchored, i + 1);
    }
  }

  /** A search for one match from the first line (`searchLine(p, 1)`) finds
      the first matching line and stops after it, or finds nothing and stops at
      the end of the file. */
  lemma FirstSearch(ls: seq<string>, p: Regex)
    ensures var scan := SearchScan(ls, p, false, SearchStart(0, |ls|), CountValue(N(1), |ls|));
      match FirstMatchFrom(ls, p, false, 0)
      case Some(n) => scan.found == [RecordAt(ls, n - 1)] && scan.end == n
      case None => scan.found == [] && scan.end == |ls|
  {
    SearchOneIsFirstMatch(ls, p, false, 0);
  }

  /** Reference definition of `reverseSearchFromLine`: the records of the lines
      1..k that match (unanchored), from line `k` down to line 1. */
  function ReverseMatches(ls: seq<string>, p: Regex, k: nat): seq<Record>
    requires k <= |ls|
  {
    if k == 0 then []
    else (if Matches(p, ls[k - 1], false) then [RecordAt(ls, k - 1)] else []) + ReverseMatches(ls, p, k - 1)
  }

  /** One step of the backward walk: taking line `m` (index `m - 1`) onto the
      records collected so far when it matches leaves ReverseMatches of the
      lines before it to be collected. */
  lemma ReverseMatchesStep(ls: seq<string>, p: Regex, m: nat, before: seq<Record>, after: seq<Record>)
    requires 0 < m <= |ls|
    requires after == before + (if Matches(p, ls[m - 1], false) then [RecordAt(ls, m - 1)] else [])
    ensures after + ReverseMatches(ls, p, m - 1) == before + ReverseMatches(ls, p, m)
  {
    var here := if Matches(p, ls[m - 1], false) then [RecordAt(ls, m - 1)] else [];
    assert before + here + ReverseMatches(ls, p, m - 1) == before + (here + ReverseMatches(ls, p, m - 1));
  }

  /** The second loop of `reverseSearchFromLine`: walks the buffered records
      from the last to the first (Python's `data[-1]`, `data[-2]`, ...) and
      keeps those whose line matches anywhere.  On the records of lines
      1..|data| that is exactly ReverseMatches. */
  method ReverseScan(ls: seq<string>, p: Regex, data: seq<Record>) returns (output: seq<Record>)
    requires |data| <= |ls|
    requires forall j :: 0 <= j < |data| ==> data[j] == RecordAt(ls, j)
    ensures output == ReverseMatches(ls, p, |data|)
  {
    output := [];
    // `back` is minus the Python index.
    var back := 1;
    while back <= |data|
      invariant 1 <= back <= |data| + 1
      invariant output + ReverseMatches(ls, p, |data| - back + 1) == ReverseMatches(ls, p, |data|)
    {
      ghost var m, before := |data| - back + 1, output;
      var lineInfo := data[|data| - back];
      if Matches(p, lineInfo.text, false) {
        output := output + [lineInfo];
      }
      ReverseMatchesStep(ls, p, m, before, output);
      back := back + 1;
    }
    assert output + ReverseMatches(ls, p, 0) == output;
  }

  /** Every element of ReverseMatches is the record of a matching line among
      1..k. */
  lemma {:induction false} ReverseMatchesSound(ls: seq<string>, p: Regex, k: nat)
    requires k <= |ls|
    ensures var r := ReverseMatches(ls, p, k);
      && |r| <= k
      && (forall q :: 0 <= q < |r| ==> IsMatchIn(ls, p, false, 0, k, r[q]))
  {
    if k > 0 {
      ReverseMatchesSound(ls, p, k - 1);
      var rest := ReverseMatches(ls, p, k - 1);
      var r := ReverseMatches(ls, p, k);
      var d := if Matches(p, ls[k - 1], false) then 1 else 0;
      assert r == (if d == 1 then [RecordAt(ls, k - 1)] else []) + rest;
      forall q | d <= q < |r| ensures IsMatchIn(ls, p, false, 0, k, r[q]) {
        assert r[q] == rest[q - d];
        assert IsMatchIn(ls, p, false, 0, k - 1, rest[q - d]);
      }
    }
  }

  /** The records of ReverseMatches come in strictly decreasing line order. */
  lemma {:induction false} ReverseMatchesDecreasing(ls: seq<string>, p: Regex, k: nat)
    requires k <= |ls|
    ensures Decreasing(ReverseMatches(ls, p, k))
  {
    if k > 0 {
      ReverseMatchesDecreasing(ls, p, k - 1);
      ReverseMatchesSound(ls, p, k - 1);
      var rest := ReverseMatches(ls, p, k - 1);
      var r := ReverseMatches(ls, p, k);
      var d := if Matches(p, ls[k - 1], false) then 1 else 0;
      assert r == (if d == 1 then [RecordAt(ls, k - 1)] else []) + rest;
      forall q1, q2 | 0 <= q1 < q2 < |r| ensures r[q1].lineNo > r[q2].lineNo {
        assert r[q2] == rest[q2 - d];
        assert IsMatchIn(ls, p, false, 0, k - 1, rest[q2 - d]);
        if q1 >= d {
          assert r[q1] == rest[q1 - d];
        }
      }
    }
  }

  /** The record of line index `k` is not among the matches of the lines
      before it. */
  lemma ReverseMatchesOmitLater(ls: seq<string>, p: Regex, k: nat)
    requires k < |ls|
    ensures RecordAt(ls, k) !in ReverseMatches(ls, p, k)
  {
    var r := ReverseMatches(ls, p, k);
    ReverseMatchesSound(ls, p, k);
    forall q | 0 <= q < |r| ensures r[q] != RecordAt(ls, k) {
      assert IsMatchIn(ls, p, false, 0, k, r[q]);
    }
  }

  /** A line among 1..k has its record in ReverseMatches exactly when it
      matches. */
  lemma {:induction false} ReverseMatchesComplete(ls: seq<string>, p: Regex, k: nat)
    requires k <= |ls|
    ensures forall j {:trigger RecordAt(ls, j)} :: 0 <= j < k ==>
      (RecordAt(ls, j) in ReverseMatches(ls, p, k) <==> Matches(p, ls[j], false))
  {
    if k > 0 {
      ReverseMatchesComplete(ls, p, k - 1);
      ReverseMatchesOmitLater(ls, p, k - 1);
      var here := if Matches(p, ls[k - 1], false) then [RecordAt(ls, k - 1)] else [];
      assert ReverseMatches(ls, p, k) == here + ReverseMatches(ls, p, k - 1);
      forall j | 0 <= j < k - 1 ensures RecordAt(ls, j) !in here { }
    }
  }

  /** What `k` raw `readline()` calls from line index `i` give once stripped,
      in the order read. */
  function ReadSpan(ls: seq<string>, i: nat, k: nat): (r: seq<string>)
    ensures |r| == k
  {
    if k == 0 then [] else ReadSpan(ls, i, k - 1) + [Strip(LineAt(ls, i + k - 1))]
  }

  /** Read `j` of the span is the stripped line at index `i + j`, or "" once
      the reads are past the end of the file. */
  lemma {:induction false} ReadSpanAt(ls: seq<string>, i: nat, k: nat, j: nat)
    requires j < k
    ensures ReadSpan(ls, i, k)[j] == Strip(LineAt(ls, i + j))
    ensures i + j >= |ls| ==> ReadSpan(ls, i, k)[j] == ""
  {
    if j < k - 1 {
      ReadSpanAt(ls, i, k - 1, j);
    }
  }

  /** Inside the file, the reads give the stripped lines of that span. */
  lemma ReadSpanInFile(ls: seq<string>, i: nat, k: nat)
    requires i + k <= |ls|
    ensures ReadSpan(ls, i, k) == StripAll(ls[i..i + k])
  {
    var r, s := ReadSpan(ls, i, k), StripAll(ls[i..i + k]);
    forall j | 0 <= j < k ensures r[j] == s[j] {
      ReadSpanAt(ls, i, k, j);
      StripAllAt(ls[i..i + k], j);
      assert ls[i..i + k][j] == ls[i + j];
    }
  }

  /** The line-number window `[max(1, m - up), min(total, m + down)]` around a
      matched line `m`, clamped to the file. */
  function Window(m: int, up: int, down: int, total: int): (w: (int, int))
    requires 1 <= m <= total && up >= 0 && down >= 0
    ensures 1 <= w.0 <= m <= w.1 <= total
    ensures w.0 >= m - up && (w.0 == 1 || w.0 == m - up)
    ensures w.1 <= m + down && (w.1 == total || w.1 == m + down)
  {
    var lo := m - up;
    var hi := m + down;
    (if lo < 1 then 1 else lo, if hi > total then total else hi)
  }

  /** The scope on one side of the match: `up if up else scope`, where an
      absent or zero `up` falls back to `scope`. */
  function SideScope(side: Option<int>, scope: int): int {
    if side.Some? && side.value != 0 then side.value else scope
  }

  /** What `fetchDataBetweenLines` returns for first matches on lines `s` and
      `t`: line `s`, the raw reads of the lines after it while the line
      counter stays below `t`, then line `t`, all stripped. */
  function BetweenLines(ls: seq<string>, s: nat, t: nat): seq<string>
    requires 1 <= s <= |ls| && 1 <= t <= |ls|
  {
    [Strip(ls[s - 1])] + ReadSpan(ls, s, if t > s + 1 then t - s - 1 else 0) + [Strip(ls[t - 1])]
  }

  /** BetweenLines in terms of the records the two searches return: the
      stripped text of the first record, the reads after it up to the line
      before the second, and the stripped text of the second. */
  lemma BetweenLinesOfRecords(ls: seq<string>, first: Record, last: Record)
    requires 1 <= first.lineNo <= |ls| && first == RecordAt(ls, first.lineNo - 1)
    requires 1 <= last.lineNo <= |ls| && last == RecordAt(ls, last.lineNo - 1)
    ensures var s, t := first.lineNo, last.lineNo;
      BetweenLines(ls, s, t) ==
        [Strip(first.text)] + ReadSpan(ls, s, if t - 1 >= s + 1 then t - 1 - (s + 1) + 1 else 0) + [Strip(last.text)]
  {
  }

  /** The span holds `max(2, t - s + 1)` strings: the stripped lines `s..t`
      when `t > s`, and just the two boundary lines otherwise. */
  lemma BetweenLinesShape(ls: seq<string>, s: nat, t: nat)
    requires 1 <= s <= |ls| && 1 <= t <= |ls|
    ensures var r := BetweenLines(ls, s, t);
      && |r| == (if t - s + 1 > 2 then t - s + 1 else 2)
      && r[0] == Strip(ls[s - 1]) && r[|r| - 1] == Strip(ls[t - 1])
      && (t > s ==> r == StripAll(ls[s - 1..t]))
      && (t <= s ==> r == [Strip(ls[s - 1]), Strip(ls[t - 1])])
  {
    var k := if t > s + 1 then t - s - 1 else 0;
    var mid := ReadSpan(ls, s, k);
    assert BetweenLines(ls, s, t) == [Strip(ls[s - 1])] + mid + [Strip(ls[t - 1])];
    if t > s {
      ReadSpanInFile(ls, s, k);
      assert s + k == t - 1;
      assert ls[s - 1..t] == [ls[s - 1]] + ls[s..t - 1] + [ls[t - 1]];
      StripAllAppend([ls[s - 1]] + ls[s..t - 1], [ls[t - 1]]);
      StripAllAppend([ls[s - 1]], ls[s..t - 1]);
    } else {
      assert mid == [];
    }
  }
}
