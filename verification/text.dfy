/** String primitives the events view relies on, with the JavaScript meaning
    they have in the page script: `String.prototype.indexOf` for a substring
    and `Array.prototype.join`. Splitting at a separator, which the script
    never does, is the inverse of the join and is used to state which ids
    an address carries.
 */
module Text {

  datatype Option<+T> = None | Some(value: T)

  /** `pat` occurs in `s` starting at position `i`. */
  ghost predicate OccursAt(s: string, pat: string, i: int)
  {
    0 <= i && i + |pat| <= |s| && s[i..i + |pat|] == pat
  }

  /** The first occurrence of `pat` in `s` at or after `from`, or -1. */
  function IndexOfFrom(s: string, pat: string, from: nat): (r: int)
    requires from <= |s|
    ensures r == -1 || (from <= r && OccursAt(s, pat, r))
    ensures r >= 0 ==> forall i :: from <= i < r ==> !OccursAt(s, pat, i)
    ensures r == -1 <==> forall i :: from <= i ==> !OccursAt(s, pat, i)
    decreases |s| - from
  {
    if from + |pat| > |s| then -1
    else if s[from..from + |pat|] == pat then from
    else IndexOfFrom(s, pat, from + 1)
  }

  /** `s.indexOf(pat)`: the first position where `pat` occurs in `s`, or -1. */
  function IndexOf(s: string, pat: string): (r: int)
    ensures r == -1 || OccursAt(s, pat, r)
    ensures r >= 0 ==> forall i :: 0 <= i < r ==> !OccursAt(s, pat, i)
    ensures r == -1 <==> forall i :: !OccursAt(s, pat, i)
  {
    IndexOfFrom(s, pat, 0)
  }

  /** `xs.join(sep)`: the elements in order with `sep` between each two;
      the empty list joins to the empty string. */
  function Join(xs: seq<string>, sep: string): (r: string)
    ensures |xs| == 0 ==> r == ""
    ensures |xs| == 1 ==> r == xs[0]
  {
    if |xs| == 0 then ""
    else if |xs| == 1 then xs[0]
    else xs[0] + sep + Join(xs[1..], sep)
  }

  /** A joined list starts with its first element, followed by the
      separator when there is a second, and ends with its last element. */
  lemma {:induction false} JoinShape(xs: seq<string>, sep: string)
    requires |xs| > 0
    ensures var r := Join(xs, sep);
      |xs[0]| <= |r| && r[..|xs[0]|] == xs[0]
    ensures var r := Join(xs, sep);
      |xs| > 1 ==> |xs[0]| + |sep| <= |r| && r[|xs[0]|..|xs[0]| + |sep|] == sep
    ensures var r := Join(xs, sep); var last := xs[|xs| - 1];
      |last| <= |r| && r[|r| - |last|..] == last
    decreases |xs|
  {
    if |xs| > 1 {
      var rest := Join(xs[1..], sep);
      var r := xs[0] + sep + rest;
      assert Join(xs, sep) == r;
      JoinShape(xs[1..], sep);
      assert xs[1..][|xs[1..]| - 1] == xs[|xs| - 1];
      assert r[|r| - |xs[|xs| - 1]|..] == rest[|rest| - |xs[|xs| - 1]|..];
    }
  }

  /** Splitting `s` at every occurrence of a non-empty `sep`, found left to
      right, as `String.prototype.split` does: the inverse of `Join`. */
  function SplitOn(s: string, sep: string): (parts: seq<string>)
    requires |sep| > 0
    ensures |parts| >= 1
    ensures Join(parts, sep) == s
    ensures forall k :: 0 <= k < |parts| ==> IndexOf(parts[k], sep) == -1
    decreases |s|
  {
    var i := IndexOf(s, sep);
    if i < 0 then [s]
    else
      var rest := SplitOn(s[i + |sep|..], sep);
      assert s == s[..i] + sep + s[i + |sep|..];
      NoOccurrenceBeforeFirst(s, sep, i);
      [s[..i]] + rest
  }

  /** Positions before the first occurrence hold no occurrence of their
      own prefix either. */
  lemma NoOccurrenceBeforeFirst(s: string, sep: string, i: int)
    requires |sep| > 0 && 0 <= i <= |s| && IndexOf(s, sep) == i
    ensures IndexOf(s[..i], sep) == -1
  {
    forall j
      ensures !OccursAt(s[..i], sep, j)
    {
      if 0 <= j && j + |sep| <= i {
        assert s[..i][j..j + |sep|] == s[j..j + |sep|];
        assert !OccursAt(s, sep, j);
      }
    }
  }

  /** When the first character of `pat` does not appear in `a`, the first
      occurrence of `pat` in `a + pat + b` is the one right after `a`. */
  lemma IndexOfAfter(a: string, pat: string, b: string)
    requires |pat| > 0 && pat[0] !in a
    ensures IndexOf(a + pat + b, pat) == |a|
  {
    var s := a + pat + b;
    assert s[|a|..|a| + |pat|] == pat;
    assert OccursAt(s, pat, |a|);
    forall i | 0 <= i < |a|
      ensures !OccursAt(s, pat, i)
    {
      assert s[i] == a[i];
      assert s[i..i + |pat|][0] == s[i];
    }
  }

  /** A string without the first character of `pat` does not contain `pat`. */
  lemma IndexOfAbsent(s: string, pat: string)
    requires |pat| > 0 && pat[0] !in s
    ensures IndexOf(s, pat) == -1
  {
    forall i
      ensures !OccursAt(s, pat, i)
    {
      if 0 <= i && i + |pat| <= |s| {
        assert s[i..i + |pat|][0] == s[i];
      }
    }
  }

  /** Splitting a joined list on its separator gives the list back, provided
      the separator's first character appears in no element. */
  lemma {:induction false} SplitJoin(xs: seq<string>, sep: string)
    requires |xs| > 0 && |sep| > 0
    requires forall k :: 0 <= k < |xs| ==> sep[0] !in xs[k]
    ensures SplitOn(Join(xs, sep), sep) == xs
    decreases |xs|
  {
    if |xs| == 1 {
      IndexOfAbsent(xs[0], sep);
    } else {
      var rest := Join(xs[1..], sep);
      var s := xs[0] + sep + rest;
      var i := |xs[0]|;
      IndexOfAfter(xs[0], sep, rest);
      assert s[..i] == xs[0];
      assert s[i + |sep|..] == rest;
      assert SplitOn(s, sep) == [s[..i]] + SplitOn(s[i + |sep|..], sep);
      SplitJoin(xs[1..], sep);
      assert xs == [xs[0]] + xs[1..];
    }
  }
}
