/**
 * Whitespace trimming as done by Python 2's `str.strip()` with no argument,
 * which removes the ASCII whitespace characters space, tab, newline,
 * carriage return, vertical tab and form feed from both ends of a string.
 */
module Text {

  /** The characters `str.strip()` removes (`string.whitespace` in Python 2). */
  predicate IsSpace(c: char) {
    c == ' ' || c == '\t' || c == '\n' || c == '\r' || c == 11 as char || c == 12 as char
  }

  /** Removes the leading whitespace. */
  function TrimLeft(s: string): string {
    if s != [] && IsSpace(s[0]) then TrimLeft(s[1..]) else s
  }

  /** Removes the trailing whitespace. */
  function TrimRight(s: string): string {
    if s != [] && IsSpace(s[|s| - 1]) then TrimRight(s[..|s| - 1]) else s
  }

  /** `s.strip()`: the part of `s` between its leading and its trailing whitespace. */
  function Strip(s: string): string {
    TrimRight(TrimLeft(s))
  }

  /** TrimLeft gives the longest suffix of `s` that does not start with
      whitespace: everything cut off is whitespace. */
  lemma {:induction false} TrimLeftSpec(s: string)
    ensures var r := TrimLeft(s);
      && |r| <= |s| && r == s[|s| - |r|..]
      && (r == [] || !IsSpace(r[0]))
      && (forall j :: 0 <= j < |s| - |r| ==> IsSpace(s[j]))
  {
    if s != [] && IsSpace(s[0]) {
      TrimLeftSpec(s[1..]);
      var r := TrimLeft(s);
      forall j | 0 < j < |s| - |r| ensures IsSpace(s[j]) {
        assert s[j] == s[1..][j - 1];
      }
    }
  }

  /** TrimRight gives the longest prefix of `s` that does not end with
      whitespace: everything cut off is whitespace. */
  lemma {:induction false} TrimRightSpec(s: string)
    ensures var r := TrimRight(s);
      && |r| <= |s| && r == s[..|r|]
      && (r == [] || !IsSpace(r[|r| - 1]))
      && (forall j :: |r| <= j < |s| ==> IsSpace(s[j]))
  {
    if s != [] && IsSpace(s[|s| - 1]) {
      var t := s[..|s| - 1];
      TrimRightSpec(t);
      var r := TrimRight(s);
      assert r == TrimRight(t);
      forall j | |r| <= j < |s| - 1 ensures IsSpace(s[j]) {
        assert s[j] == t[j];
      }
    }
  }

  /** Strips every string of a list, keeping the order. */
  function StripAll(ls: seq<string>): (r: seq<string>)
    ensures |r| == |ls|
  {
    if ls == [] then [] else [Strip(ls[0])] + StripAll(ls[1..])
  }

  /** Element `j` of StripAll is the strip of element `j`. */
  lemma {:induction false} StripAllAt(ls: seq<string>, j: nat)
    requires j < |ls|
    ensures StripAll(ls)[j] == Strip(ls[j])
  {
    if j > 0 {
      StripAllAt(ls[1..], j - 1);
    }
  }

  /** Stripping a concatenation strips each part. */
  lemma {:induction false} StripAllAppend(a: seq<string>, b: seq<string>)
    ensures StripAll(a + b) == StripAll(a) + StripAll(b)
  {
    if a == [] {
      assert a + b == b;
    } else {
      assert (a + b)[1..] == a[1..] + b;
      StripAllAppend(a[1..], b);
    }
  }

  /** Stripping removes only whitespace, and only at the two ends: the result
      has no whitespace at either end, and is the contiguous piece of `s` that
      starts after the leading whitespace and is followed by nothing but
      whitespace. */
  lemma StripIsInnerSlice(s: string)
    ensures |TrimLeft(s)| <= |s|
    ensures var i, r := |s| - |TrimLeft(s)|, Strip(s);
      && (r == [] || (!IsSpace(r[0]) && !IsSpace(r[|r| - 1])))
      && i + |r| <= |s| && r == s[i..i + |r|]
      && (forall k :: 0 <= k < i ==> IsSpace(s[k]))
      && (forall k :: i + |r| <= k < |s| ==> IsSpace(s[k]))
  {
    var l := TrimLeft(s);
    var i := |s| - |l|;
    assert |l| <= |s| && l == s[i..] && (l == [] || !IsSpace(l[0]))
      && (forall k :: 0 <= k < i ==> IsSpace(s[k])) by {
      TrimLeftSpec(s);
    }
    var r := TrimRight(l);
    assert |r| <= |l| && r == l[..|r|] && (r == [] || !IsSpace(r[|r| - 1]))
      && (forall k :: |r| <= k < |l| ==> IsSpace(l[k])) by {
      TrimRightSpec(l);
    }
    assert r == s[i..i + |r|] by {
      assert s[i..][..|r|] == s[i..i + |r|];
    }
    assert r != [] ==> r[0] == l[0];
    forall k | i + |r| <= k < |s| ensures IsSpace(s[k]) {
      assert s[k] == l[k - i];
    }
  }
}
