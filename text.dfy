/**
 * The Python string operations the pipeline relies on: `str.strip()`,
 * `"\n".join(lines)`, `str.split("\n")` and `str.replace(old, new)`.
 */
module Text {

  /** Python's `str.isspace()` for one character: the code points it accepts. */
  predicate IsSpace(c: char) {
    || c == ' '
    || '\t' <= c <= '\r'
    || '\U{1c}' <= c <= '\U{1f}'
    || c == '\U{85}' || c == '\U{a0}' || c == '\U{1680}'
    || '\U{2000}' <= c <= '\U{200a}'
    || c == '\U{2028}' || c == '\U{2029}' || c == '\U{202f}'
    || c == '\U{205f}' || c == '\U{3000}'
  }

  /** Where `s` stops being whitespace: the number of its leading whitespace characters. */
  function StripStart(s: string): (i: nat)
    ensures i <= |s|
    ensures forall k :: 0 <= k < i ==> IsSpace(s[k])
    ensures i < |s| ==> !IsSpace(s[i])
  {
    if s == [] || !IsSpace(s[0]) then 0 else 1 + StripStart(s[1..])
  }

  /**
   * Where the text of `s` after position `lo` ends: everything from it on is
   * whitespace, and the character before it (if after `lo`) is not.
   */
  function StripEnd(s: string, lo: nat): (j: nat)
    requires lo <= |s|
    ensures lo <= j <= |s|
    ensures forall k :: j <= k < |s| ==> IsSpace(s[k])
    ensures j > lo ==> !IsSpace(s[j - 1])
    decreases |s|
  {
    if |s| == lo || !IsSpace(s[|s| - 1]) then |s| else StripEnd(s[..|s| - 1], lo)
  }

  /**
   * Python's `str.strip()`: leading whitespace is dropped, then trailing
   * whitespace; what remains is the slice between the two.
   */
  function Strip(s: string): string {
    var i := StripStart(s);
    s[i..StripEnd(s, i)]
  }

  /**
   * The stripped text is a slice `s[i..j]` with everything before `i` and
   * from `j` on whitespace, and it neither starts nor ends with whitespace.
   */
  lemma StripSlice(s: string)
    ensures var i, j := StripStart(s), StripEnd(s, StripStart(s));
      && Strip(s) == s[i..j]
      && (forall k :: 0 <= k < i ==> IsSpace(s[k]))
      && (forall k :: j <= k < |s| ==> IsSpace(s[k]))
      && (Strip(s) == [] || (!IsSpace(Strip(s)[0]) && !IsSpace(Strip(s)[|Strip(s)| - 1])))
  {
  }

  /** Stripping yields the empty string exactly when every character is whitespace. */
  lemma StripBlank(s: string)
    ensures Strip(s) == [] <==> forall k :: 0 <= k < |s| ==> IsSpace(s[k])
  {
    StripSlice(s);
    var i := StripStart(s);
    if i < |s| {
      assert !IsSpace(s[i]);
      assert StripEnd(s, i) > i;
    }
  }

  /** Stripping only removes characters: what it keeps was in the input. */
  lemma StripKeeps(s: string, c: char)
    requires c in Strip(s)
    ensures c in s
  {
    var i := StripStart(s);
    var r := Strip(s);
    var k :| 0 <= k < |r| && r[k] == c;
    assert s[i + k] == c;
  }

  /** Python's `"\n".join(lines)`. */
  function Join(lines: seq<string>): (r: string)
    ensures |lines| == 1 ==> r == lines[0]
  {
    if |lines| == 0 then ""
    else if |lines| == 1 then lines[0]
    else lines[0] + "\n" + Join(lines[1..])
  }

  /** Python's `s.split("\n")`: never empty; the pieces carry no newline. */
  function Split(s: string): (r: seq<string>)
    ensures |r| >= 1
    ensures forall i :: 0 <= i < |r| ==> '\n' !in r[i]
  {
    if s == [] then [""]
    else if s[0] == '\n' then [""] + Split(s[1..])
    else
      var rest := Split(s[1..]);
      [[s[0]] + rest[0]] + rest[1..]
  }

  lemma {:induction false} SplitNoNewline(a: string)
    requires '\n' !in a
    ensures Split(a) == [a]
  {
    if a != [] {
      SplitNoNewline(a[1..]);
      assert [a[0]] + a[1..] == a;
    }
  }

  lemma {:induction false} SplitAtNewline(a: string, b: string)
    requires '\n' !in a
    ensures Split(a + "\n" + b) == [a] + Split(b)
  {
    if a == [] {
      assert a + "\n" + b == "\n" + b;
      assert ("\n" + b)[1..] == b;
    } else {
      var s := a + "\n" + b;
      assert s[1..] == a[1..] + "\n" + b;
      SplitAtNewline(a[1..], b);
      assert [a[0]] + a[1..] == a;
    }
  }

  /**
   * Splitting a join of newline-free lines gives the lines back, so the line
   * count of a joined text is the number of lines joined.
   */
  lemma {:induction false} SplitJoin(lines: seq<string>)
    requires |lines| >= 1
    requires forall i :: 0 <= i < |lines| ==> '\n' !in lines[i]
    ensures Split(Join(lines)) == lines
  {
    if |lines| == 1 {
      SplitNoNewline(lines[0]);
    } else {
      SplitJoin(lines[1..]);
      SplitAtNewline(lines[0], Join(lines[1..]));
    }
  }

  /** `pat` occurs in `s` starting at index `i`. */
  predicate OccursAt(s: string, pat: string, i: nat) {
    i + |pat| <= |s| && s[i..i + |pat|] == pat
  }

  predicate Occurs(s: string, pat: string) {
    exists i: nat | i <= |s| :: OccursAt(s, pat, i)
  }

  /**
   * Python's `s.replace(pat, rep)` for a non-empty `pat`: occurrences are
   * found left to right and replaced without overlapping.
   */
  function ReplaceAll(s: string, pat: string, rep: string): string
    requires |pat| > 0
    decreases |s|
  {
    if |s| < |pat| then s
    else if s[..|pat|] == pat then rep + ReplaceAll(s[|pat|..], pat, rep)
    else [s[0]] + ReplaceAll(s[1..], pat, rep)
  }

  /** Replacing a pattern by itself changes nothing. */
  lemma {:induction false} ReplaceBySelf(s: string, pat: string)
    requires |pat| > 0
    ensures ReplaceAll(s, pat, pat) == s
    decreases |s|
  {
    if |s| >= |pat| {
      if s[..|pat|] == pat {
        ReplaceBySelf(s[|pat|..], pat);
        assert pat + s[|pat|..] == s;
      } else {
        ReplaceBySelf(s[1..], pat);
        assert [s[0]] + s[1..] == s;
      }
    }
  }

  /** A pattern that does not occur is not replaced: the text is unchanged. */
  lemma {:induction false} ReplaceAbsent(s: string, pat: string, rep: string)
    requires |pat| > 0 && !Occurs(s, pat)
    ensures ReplaceAll(s, pat, rep) == s
    decreases |s|
  {
    if |s| >= |pat| {
      assert !OccursAt(s, pat, 0);
      assert s[..|pat|] != pat;
      forall i: nat ensures !OccursAt(s[1..], pat, i) {
        assert !OccursAt(s, pat, i + 1);
        if i + |pat| <= |s[1..]| {
          assert s[1..][i..i + |pat|] == s[i + 1..i + 1 + |pat|];
        }
      }
      ReplaceAbsent(s[1..], pat, rep);
      assert [s[0]] + s[1..] == s;
    }
  }

  /** Replacing the whole pattern gives the replacement. */
  lemma ReplaceWhole(pat: string, rep: string)
    requires |pat| > 0
    ensures ReplaceAll(pat, pat, rep) == rep
  {
    assert pat[|pat|..] == [];
  }

  /** A first character that cannot start the pattern is kept, and the rest is replaced. */
  lemma ReplaceSkip(c: char, s: string, pat: string, rep: string)
    requires |pat| > 0 && c != pat[0]
    ensures ReplaceAll([c] + s, pat, rep) == [c] + ReplaceAll(s, pat, rep)
  {
    var t := [c] + s;
    assert t[1..] == s;
    if |t| >= |pat| {
      assert t[..|pat|][0] == c;
    }
  }

  /** Text without the pattern's first character is not changed by replacing it. */
  lemma {:induction false} ReplaceWithoutFirst(s: string, pat: string, rep: string)
    requires |pat| > 0 && pat[0] !in s
    ensures ReplaceAll(s, pat, rep) == s
    decreases |s|
  {
    if s != [] {
      assert pat[0] !in s[1..];
      ReplaceWithoutFirst(s[1..], pat, rep);
      ReplaceSkip(s[0], s[1..], pat, rep);
      assert [s[0]] + s[1..] == s;
    }
  }

  /** No occurrence of `pat` in `a + b` begins in `a` and ends in `b`. */
  predicate NoStraddle(a: string, b: string, pat: string) {
    forall i :: 0 <= i < |a| < i + |pat| ==> !OccursAt(a + b, pat, i)
  }

  /** Dropping a prefix of `a` keeps the occurrences that straddle the boundary away. */
  lemma NoStraddleDrop(a: string, b: string, pat: string, d: nat)
    requires d <= |a| && NoStraddle(a, b, pat)
    ensures NoStraddle(a[d..], b, pat)
  {
    var a' := a[d..];
    assert a' + b == (a + b)[d..];
    forall i | 0 <= i < |a'| < i + |pat|
      ensures !OccursAt(a' + b, pat, i)
    {
      assert !OccursAt(a + b, pat, i + d);
      if i + |pat| <= |a' + b| {
        assert (a' + b)[i..i + |pat|] == (a + b)[i + d..i + d + |pat|];
      }
    }
  }

  /**
   * When no occurrence straddles the boundary of `a + b`, replacing in the
   * whole is replacing in each part.
   */
  lemma {:induction false} ReplaceSplit(a: string, b: string, pat: string, rep: string)
    requires |pat| > 0 && NoStraddle(a, b, pat)
    ensures ReplaceAll(a + b, pat, rep) == ReplaceAll(a, pat, rep) + ReplaceAll(b, pat, rep)
    decreases |a|
  {
    var s := a + b;
    if a == [] {
      assert s == b;
    } else if |a| >= |pat| && a[..|pat|] == pat {
      assert s[..|pat|] == pat;
      assert s[|pat|..] == a[|pat|..] + b;
      NoStraddleDrop(a, b, pat, |pat|);
      ReplaceSplit(a[|pat|..], b, pat, rep);
    } else {
      if |s| >= |pat| {
        assert !OccursAt(s, pat, 0) by {
          if |a| >= |pat| {
            assert s[..|pat|] == a[..|pat|];
          }
        }
        assert s[1..] == a[1..] + b;
      }
      NoStraddleDrop(a, b, pat, 1);
      ReplaceSplit(a[1..], b, pat, rep);
      if |a| < |pat| {
        assert ReplaceAll(a[1..], pat, rep) == a[1..];
        assert [a[0]] + a[1..] == a;
      }
    }
  }

  /** Every line with the pattern replaced. */
  function ReplaceLines(lines: seq<string>, pat: string, rep: string): (r: seq<string>)
    requires |pat| > 0
  {
    seq(|lines|, i requires 0 <= i < |lines| => ReplaceAll(lines[i], pat, rep))
  }

  /** A pattern without a newline is replaced on each side of a newline separately. */
  lemma ReplaceAtNewline(a: string, b: string, pat: string, rep: string)
    requires |pat| > 0 && '\n' !in pat
    ensures ReplaceAll(a + "\n" + b, pat, rep) == ReplaceAll(a, pat, rep) + "\n" + ReplaceAll(b, pat, rep)
  {
    assert a + "\n" + b == a + ("\n" + b);
    forall i | 0 <= i < |a| < i + |pat|
      ensures !OccursAt(a + ("\n" + b), pat, i)
    {
      var s := a + ("\n" + b);
      if i + |pat| <= |s| {
        assert s[i..i + |pat|][|a| - i] == '\n';
      }
    }
    ReplaceSplit(a, "\n" + b, pat, rep);
    ReplaceSkip('\n', b, pat, rep);
  }

  /**
   * A pattern without a newline never spans two lines, so replacing it in
   * joined lines is replacing it in every line.
   */
  lemma {:induction false} ReplaceJoin(lines: seq<string>, pat: string, rep: string)
    requires |pat| > 0 && '\n' !in pat
    ensures ReplaceAll(Join(lines), pat, rep) == Join(ReplaceLines(lines, pat, rep))
  {
    var replaced := ReplaceLines(lines, pat, rep);
    if |lines| >= 2 {
      var a, b := lines[0], Join(lines[1..]);
      assert replaced[1..] == ReplaceLines(lines[1..], pat, rep);
      calc {
        ReplaceAll(Join(lines), pat, rep);
        ReplaceAll(a + "\n" + b, pat, rep);
        { ReplaceAtNewline(a, b, pat, rep); }
        ReplaceAll(a, pat, rep) + "\n" + ReplaceAll(b, pat, rep);
        { ReplaceJoin(lines[1..], pat, rep); }
        replaced[0] + "\n" + Join(replaced[1..]);
        Join(replaced);
      }
    }
  }

  /** Index of the first `c` in `s`, or `|s|` when there is none. */
  function FirstIndex(s: string, c: char): (i: nat)
    ensures i <= |s|
    ensures i < |s| ==> s[i] == c
    ensures forall k :: 0 <= k < i ==> s[k] != c
  {
    if s == [] then 0 else if s[0] == c then 0 else 1 + FirstIndex(s[1..], c)
  }

  /** The first `c` in `s` is at `i` when `s[i]` is one and none comes before it. */
  lemma FirstIndexAt(s: string, c: char, i: nat)
    requires i < |s| && s[i] == c && c !in s[..i]
    ensures FirstIndex(s, c) == i
  {
    assert forall k :: 0 <= k < i ==> s[k] == s[..i][k];
  }
}
