/**
 * A text file seen as the sequence of lines that iterating over a file object
 * yields: every line keeps its terminating newline, only the last line may
 * lack one, and the byte position of a line is the total length of the lines
 * before it.
 */
module Lines {

  /** The file's text: its lines put back together. */
  function Concat(ls: seq<string>): (t: string)
    ensures ls == [] ==> t == ""
  {
    if ls == [] then "" else ls[0] + Concat(ls[1..])
  }

  /** Every line holds at least one character, so a read gives "" only at end
      of file. */
  predicate NoEmptyLine(ls: seq<string>) {
    forall i :: 0 <= i < |ls| ==> |ls[i]| > 0
  }

  /** What a sequence of lines read from a file looks like: no line is empty,
      a newline occurs only as a line's last character, and every line but the
      last ends with one. */
  ghost predicate IsLineSplit(ls: seq<string>) {
    && NoEmptyLine(ls)
    && (forall i, j :: 0 <= i < |ls| && 0 <= j < |ls[i]| - 1 ==> ls[i][j] != '\n')
    && (forall i :: 0 <= i < |ls| - 1 ==> ls[i][|ls[i]| - 1] == '\n')
  }

  /** The length of the first line of a non-empty text: up to and including
      the first newline, or the whole text when it has none. */
  function LineEnd(t: string): (k: nat)
    requires t != []
    ensures 1 <= k <= |t|
    ensures forall j :: 0 <= j < k - 1 ==> t[j] != '\n'
    ensures k == |t| || t[k - 1] == '\n'
  {
    if t[0] == '\n' || |t| == 1 then 1 else 1 + LineEnd(t[1..])
  }

  /** The lines of a text, each with its newline, as `for line in file` gives
      them; joined again they give back the text. */
  function SplitLines(t: string): (ls: seq<string>)
    ensures IsLineSplit(ls)
    ensures Concat(ls) == t
    decreases |t|
  {
    if t == [] then []
    else
      var k := LineEnd(t);
      var rest := SplitLines(t[k..]);
      assert t[k..] == [] ==> rest == [];
      assert t[..k] + t[k..] == t;
      ShiftedSplit(t[..k], rest);
      [t[..k]] + rest
  }

  /** Adding a first line in front of a split keeps it a split, provided the new
      line is non-empty, has no inner newline, and ends with one when other
      lines follow. */
  lemma ShiftedSplit(x: string, rest: seq<string>)
    requires IsLineSplit(rest)
    requires |x| > 0
    requires forall j :: 0 <= j < |x| - 1 ==> x[j] != '\n'
    requires rest != [] ==> x[|x| - 1] == '\n'
    ensures IsLineSplit([x] + rest)
  {
    var ls := [x] + rest;
    forall i | 0 < i < |ls| ensures ls[i] == rest[i - 1] { }
  }

  /** A first line with no inner newline, followed by more text only when it
      ends with a newline, is exactly what LineEnd measures. */
  lemma {:induction false} LineEndOfFirst(x: string, y: string)
    requires |x| > 0
    requires forall j :: 0 <= j < |x| - 1 ==> x[j] != '\n'
    requires y != [] ==> x[|x| - 1] == '\n'
    ensures LineEnd(x + y) == |x|
  {
    var t := x + y;
    if |x| > 1 {
      assert t[0] == x[0] && t[1..] == x[1..] + y;
      LineEndOfFirst(x[1..], y);
    }
  }

  /** Round trip: splitting the text of a split gives the same lines back. */
  lemma {:induction false} SplitConcat(ls: seq<string>)
    requires IsLineSplit(ls)
    ensures SplitLines(Concat(ls)) == ls
  {
    if ls != [] {
      var x, rest := ls[0], ls[1..];
      assert IsLineSplit(rest) by {
        forall i | 0 <= i < |rest| ensures rest[i] == ls[i + 1] { }
      }
      assert Concat(ls) == x + Concat(rest);
      assert forall j :: 0 <= j < |x| - 1 ==> x[j] != '\n' by {
        forall j | 0 <= j < |x| - 1 ensures x[j] != '\n' { assert ls[0][j] == x[j]; }
      }
      assert Concat(rest) != [] ==> rest != [];
      LineEndOfFirst(x, Concat(rest));
      assert (x + Concat(rest))[|x|..] == Concat(rest);
      assert (x + Concat(rest))[..|x|] == x;
      SplitConcat(rest);
    }
  }

  /** Joining two lists of lines joins their texts. */
  lemma {:induction false} ConcatAppend(a: seq<string>, b: seq<string>)
    ensures Concat(a + b) == Concat(a) + Concat(b)
  {
    if a != [] {
      assert (a + b)[0] == a[0] && (a + b)[1..] == a[1..] + b;
      ConcatAppend(a[1..], b);
      assert Concat(a + b) == a[0] + Concat(a[1..] + b);
    } else {
      assert a + b == b;
    }
  }

  /** The byte offset of the start of line `k + 1` (the 0-based index `k`):
      the total length of the lines before it, which is what `tell()` reports
      once they have been read. */
  function Offset(ls: seq<string>, k: nat): nat
    requires k <= |ls|
  {
    if k == 0 then 0 else Offset(ls, k - 1) + |ls[k - 1]|
  }

  /** Offsets grow with the line index. */
  lemma {:induction false} OffsetMonotone(ls: seq<string>, i: nat, j: nat)
    requires i <= j <= |ls|
    ensures Offset(ls, i) <= Offset(ls, j)
    decreases j - i
  {
    if i < j {
      OffsetMonotone(ls, i, j - 1);
    }
  }

  /** The offset of line index `k` is the length of the text before it. */
  lemma {:induction false} OffsetIsPrefixLength(ls: seq<string>, k: nat)
    requires k <= |ls|
    ensures Offset(ls, k) == |Concat(ls[..k])|
  {
    if k > 0 {
      OffsetIsPrefixLength(ls, k - 1);
      assert ls[..k] == ls[..k - 1] + [ls[k - 1]];
      ConcatAppend(ls[..k - 1], [ls[k - 1]]);
      assert Concat([ls[k - 1]]) == ls[k - 1] + Concat([]);
    }
  }

  /** The offsets locate each line in the file's text: line index `k` is the
      text between `Offset(ls, k)` and `Offset(ls, k + 1)`. */
  lemma OffsetLocatesLine(ls: seq<string>, k: nat)
    requires k < |ls|
    ensures Offset(ls, k + 1) <= |Concat(ls)|
    ensures Concat(ls)[Offset(ls, k)..Offset(ls, k + 1)] == ls[k]
  {
    var before, after := ls[..k], ls[k + 1..];
    assert ls == before + ([ls[k]] + after);
    ConcatAppend(before, [ls[k]] + after);
    assert Concat([ls[k]] + after) == ls[k] + Concat(after);
    OffsetIsPrefixLength(ls, k);
    var t := Concat(before) + (ls[k] + Concat(after));
    assert t[|Concat(before)|..|Concat(before)| + |ls[k]|] == ls[k];
  }

  /** What one `readline()` at line index `i` returns: the line, or "" at end
      of file. */
  function LineAt(ls: seq<string>, i: nat): string
  {
    if i < |ls| then ls[i] else ""
  }
}
