/**
 * Python's string primitives as the PAC pipeline uses them: `str.strip()`, `str.split(sep)`,
 * `sep.join(parts)`, `str.replace(old, new)`, and `filter` over a list.
 */
module Text {

  /** Python's `str.isspace()` for one character: what `str.strip()` with no argument removes. */
  predicate IsSpace(c: char) {
    ('\t' <= c <= '\r') || ('\U{1C}' <= c <= ' ') || c == '\U{85}' || c == '\U{A0}' || c == '\U{1680}'
    || ('\U{2000}' <= c <= '\U{200A}') || c == '\U{2028}' || c == '\U{2029}' || c == '\U{202F}'
    || c == '\U{205F}' || c == '\U{3000}'
  }

  /** Neither end of `s` is whitespace. */
  predicate IsStripped(s: string) {
    s == [] || (!IsSpace(s[0]) && !IsSpace(s[|s| - 1]))
  }

  /** `s.lstrip()`: the suffix of `s` left after dropping its leading whitespace. */
  function StripLeft(s: string): (r: string)
    ensures |r| <= |s|
    ensures r == [] || !IsSpace(r[0])
  {
    if s != [] && IsSpace(s[0]) then StripLeft(s[1..]) else s
  }

  /** What `s.lstrip()` keeps is a suffix of `s`. */
  lemma {:induction false} StripLeftSuffix(s: string)
    ensures StripLeft(s) == s[|s| - |StripLeft(s)|..]
  {
    if s != [] && IsSpace(s[0]) {
      StripLeftSuffix(s[1..]);
    }
  }

  /** What `s.lstrip()` drops is whitespace. */
  lemma {:induction false} StripLeftDropsSpace(s: string)
    ensures forall i :: 0 <= i < |s| - |StripLeft(s)| ==> IsSpace(s[i])
  {
    if s != [] && IsSpace(s[0]) {
      StripLeftDropsSpace(s[1..]);
      StripLeftSuffix(s[1..]);
      assert forall i :: 1 <= i < |s| ==> s[i] == s[1..][i - 1];
    }
  }

  /** `s.rstrip()`: the prefix of `s` left after dropping its trailing whitespace. */
  function StripRight(s: string): (r: string)
    ensures |r| <= |s|
    ensures r == [] || !IsSpace(r[|r| - 1])
  {
    if s != [] && IsSpace(s[|s| - 1]) then StripRight(s[..|s| - 1]) else s
  }

  /** What `s.rstrip()` keeps is a prefix of `s`. */
  lemma {:induction false} StripRightPrefix(s: string)
    ensures StripRight(s) == s[..|StripRight(s)|]
  {
    if s != [] && IsSpace(s[|s| - 1]) {
      StripRightPrefix(s[..|s| - 1]);
    }
  }

  /** What `s.rstrip()` drops is whitespace. */
  lemma {:induction false} StripRightDropsSpace(s: string)
    ensures forall i :: |StripRight(s)| <= i < |s| ==> IsSpace(s[i])
  {
    if s != [] && IsSpace(s[|s| - 1]) {
      StripRightDropsSpace(s[..|s| - 1]);
      StripRightPrefix(s[..|s| - 1]);
    }
  }

  /** `s.strip()`: neither end of the result is whitespace, and a stripped string is left as it is. */
  function Strip(s: string): (r: string)
    ensures IsStripped(r)
    ensures forall c :: c in r ==> c in s
    ensures IsStripped(s) ==> r == s
  {
    StripLeftSuffix(s);
    StripRightPrefix(StripLeft(s));
    StripRight(StripLeft(s))
  }

  /**
   * `s.strip()` keeps the one stretch of `s` that has only whitespace around it; it is empty
   * exactly when `s` is all whitespace.
   */
  lemma StripTrims(s: string)
    ensures var r, k := Strip(s), |s| - |StripLeft(s)|;
            && k + |r| <= |s| && r == s[k..k + |r|]
            && (forall i :: 0 <= i < k ==> IsSpace(s[i]))
            && (forall i :: k + |r| <= i < |s| ==> IsSpace(s[i]))
    ensures Strip(s) == [] <==> forall i :: 0 <= i < |s| ==> IsSpace(s[i])
  {
    var l := StripLeft(s);
    var k := |s| - |l|;
    StripLeftSuffix(s);
    StripLeftDropsSpace(s);
    StripRightInside(s, l, k);
    var r := StripRight(l);
    assert Strip(s) == r;
    if r != [] {
      assert s[k] == r[0] && !IsSpace(s[k]);
    }
  }

  /** The right strip of the suffix `l` of `s`, read back in the coordinates of `s`. */
  lemma StripRightInside(s: string, l: string, k: int)
    requires 0 <= k <= |s| && l == s[k..]
    ensures var r := StripRight(l);
            && k + |r| <= |s| && r == s[k..k + |r|]
            && (forall i :: k + |r| <= i < |s| ==> IsSpace(s[i]))
  {
    var r := StripRight(l);
    StripRightPrefix(l);
    StripRightDropsSpace(l);
    assert r == s[k..k + |r|];
    assert forall i :: k + |r| <= i < |s| ==> s[i] == l[i - k];
  }

  /**
   * `s.split(sep)` for a one-character separator: the pieces between separators, in order,
   * empty pieces included; there is always at least one piece.
   */
  function Split(s: string, sep: char): (parts: seq<string>)
    ensures |parts| >= 1
    ensures forall i :: 0 <= i < |parts| ==> sep !in parts[i]
  {
    if s == [] then [[]]
    else
      var rest := Split(s[1..], sep);
      if s[0] == sep then [[]] + rest
      else [[s[0]] + rest[0]] + rest[1..]
  }

  /** `sep.join(parts)`. */
  function Join(parts: seq<string>, sep: string): (r: string) {
    if |parts| == 0 then []
    else if |parts| == 1 then parts[0]
    else parts[0] + sep + Join(parts[1..], sep)
  }

  /** Every character of a joined string comes from the separator or from one of the parts. */
  lemma {:induction false} JoinChars(parts: seq<string>, sep: string, c: char)
    requires c in Join(parts, sep)
    ensures c in sep || exists p :: p in parts && c in p
  {
    if |parts| > 1 && c in Join(parts[1..], sep) {
      JoinChars(parts[1..], sep, c);
    }
  }

  /** Splitting then joining with the same separator gives the text back. */
  lemma {:induction false} JoinSplit(s: string, sep: char)
    ensures Join(Split(s, sep), [sep]) == s
  {
    if s != [] {
      var rest := Split(s[1..], sep);
      JoinSplit(s[1..], sep);
      if s[0] == sep {
        assert Split(s, sep)[1..] == rest;
      } else {
        var parts := Split(s, sep);
        assert parts[1..] == rest[1..];
        if |rest| > 1 {
          assert Join(rest, [sep]) == rest[0] + [sep] + Join(rest[1..], [sep]);
        }
      }
    }
  }

  /** A text without the separator is one piece. */
  lemma {:induction false} SplitWithoutSep(s: string, sep: char)
    requires sep !in s
    ensures Split(s, sep) == [s]
  {
    if s != [] {
      SplitWithoutSep(s[1..], sep);
      assert [s[0]] + s[1..] == s;
    }
  }

  /** Splitting `a + sep + b` where `a` holds no separator yields `a` followed by the pieces of `b`. */
  lemma {:induction false} SplitAfterSep(a: string, b: string, sep: char)
    requires sep !in a
    ensures Split(a + [sep] + b, sep) == [a] + Split(b, sep)
  {
    if a == [] {
      assert a + [sep] + b == [sep] + b;
      assert ([sep] + b)[1..] == b;
    } else {
      SplitAfterSep(a[1..], b, sep);
      assert (a + [sep] + b)[1..] == a[1..] + [sep] + b;
      assert [a[0]] + a[1..] == a;
    }
  }

  /** Joining then splitting gives the parts back when no part holds the separator. */
  lemma {:induction false} SplitJoin(parts: seq<string>, sep: char)
    requires |parts| >= 1
    requires forall i :: 0 <= i < |parts| ==> sep !in parts[i]
    ensures Split(Join(parts, [sep]), sep) == parts
  {
    if |parts| == 1 {
      SplitWithoutSep(parts[0], sep);
    } else {
      SplitJoin(parts[1..], sep);
      SplitAfterSep(parts[0], Join(parts[1..], [sep]), sep);
      assert [parts[0]] + parts[1..] == parts;
    }
  }

  /** `map(str.strip, lines)`: every line stripped, the list's length and order kept. */
  function StripAll(lines: seq<string>): (r: seq<string>)
    ensures |r| == |lines| && forall i {:trigger r[i]} :: 0 <= i < |lines| ==> r[i] == Strip(lines[i])
  {
    if lines == [] then [] else [Strip(lines[0])] + StripAll(lines[1..])
  }

  /** A string is among the stripped lines exactly when some line strips to it. */
  lemma StripAllMembers(lines: seq<string>)
    ensures forall line :: line in lines ==> Strip(line) in StripAll(lines)
    ensures forall x :: x in StripAll(lines) ==> exists line :: line in lines && x == Strip(line)
  {
    var r := StripAll(lines);
    forall line | line in lines ensures Strip(line) in r {
      var i :| 0 <= i < |lines| && lines[i] == line;
      assert r[i] == Strip(line);
    }
    forall x | x in r ensures exists line :: line in lines && x == Strip(line) {
      var i :| 0 <= i < |r| && r[i] == x;
      assert lines[i] in lines;
    }
  }

  /** Stripping lines that are already stripped changes nothing. */
  lemma StripAllStripped(lines: seq<string>)
    requires forall i :: 0 <= i < |lines| ==> IsStripped(lines[i])
    ensures StripAll(lines) == lines
  {
  }

  /** `operator.truth` on a string: it is not empty. */
  predicate NonEmpty(s: string) {
    s != []
  }

  /** `filter(keep, xs)`: the elements of `xs` that `keep` accepts, in their original order. */
  function Filter(keep: string -> bool, xs: seq<string>): (r: seq<string>)
    ensures |r| <= |xs|
    ensures forall x :: x in r <==> x in xs && keep(x)
    ensures IsSubsequence(r, xs)
  {
    if xs == [] then []
    else
      var rest := Filter(keep, xs[1..]);
      assert xs == [xs[0]] + xs[1..];
      if keep(xs[0]) then [xs[0]] + rest else rest
  }

  /** Filtering keeps every accepted element as often as it occurs, and drops every other one. */
  lemma {:induction false} FilterCounts(keep: string -> bool, xs: seq<string>)
    ensures forall x :: multiset(Filter(keep, xs))[x] == if keep(x) then multiset(xs)[x] else 0
  {
    if xs != [] {
      FilterCounts(keep, xs[1..]);
      assert xs == [xs[0]] + xs[1..];
    }
  }

  /** `a` can be obtained from `b` by deleting elements: `b`'s order and repetitions are kept. */
  predicate IsSubsequence(a: seq<string>, b: seq<string>)
    decreases |b|
  {
    a == [] || (b != [] && (if a[0] == b[0] then IsSubsequence(a[1..], b[1..]) else IsSubsequence(a, b[1..])))
  }

  /** Filtering with a test every element passes changes nothing. */
  lemma {:induction false} FilterKeepsAll(keep: string -> bool, xs: seq<string>)
    requires forall i :: 0 <= i < |xs| ==> keep(xs[i])
    ensures Filter(keep, xs) == xs
  {
    if xs != [] {
      FilterKeepsAll(keep, xs[1..]);
      assert [xs[0]] + xs[1..] == xs;
    }
  }

  /** `pat` occurs in `s` starting at index `p`. */
  predicate OccursAt(s: string, pat: string, p: int) {
    0 <= p && p + |pat| <= |s| && s[p..p + |pat|] == pat
  }

  /** `pat` occurs nowhere in `s`. */
  predicate Absent(s: string, pat: string) {
    forall p :: 0 <= p <= |s| ==> !OccursAt(s, pat, p)
  }

  /** A string lacking one of the pattern's characters cannot contain the pattern. */
  lemma AbsentByChar(s: string, pat: string, j: nat)
    requires j < |pat| && pat[j] !in s
    ensures Absent(s, pat)
  {
  }

  /** An occurrence in `s + t` lies in `s`, lies in `t`, or straddles the joint, covering its two characters. */
  lemma OccursInConcat(s: string, t: string, pat: string, p: int)
    requires OccursAt(s + t, pat, p)
    ensures || (p + |pat| <= |s| && OccursAt(s, pat, p))
            || (p >= |s| && OccursAt(t, pat, p - |s|))
            || (p < |s| < p + |pat| && s[|s| - 1] in pat && t[0] in pat)
  {
    var u := s + t;
    if p + |pat| <= |s| {
      assert u[p..p + |pat|] == s[p..p + |pat|];
    } else if p >= |s| {
      assert u[p..p + |pat|] == t[p - |s|..p - |s| + |pat|];
    } else {
      assert pat[|s| - 1 - p] == u[|s| - 1] == s[|s| - 1];
      assert pat[|s| - p] == u[|s|] == t[0];
    }
  }

  /** Two texts without the pattern stay without it when joined, unless it can straddle the joint. */
  lemma AbsentConcat(s: string, t: string, pat: string)
    requires Absent(s, pat) && Absent(t, pat)
    requires s == [] || t == [] || s[|s| - 1] !in pat || t[0] !in pat
    ensures Absent(s + t, pat)
  {
    forall p | 0 <= p <= |s + t| && OccursAt(s + t, pat, p)
      ensures false
    {
      OccursInConcat(s, t, pat, p);
    }
  }

  /**
   * `s.replace(pat, rep)`: scanning left to right, each occurrence of `pat` that does not overlap
   * an earlier replaced one becomes `rep`; the inserted text is not scanned again.
   */
  function Replace(s: string, pat: string, rep: string): (r: string)
    requires pat != []
    decreases |s|
  {
    if |s| < |pat| then s
    else if s[..|pat|] == pat then rep + Replace(s[|pat|..], pat, rep)
    else [s[0]] + Replace(s[1..], pat, rep)
  }

  /**
   * Replacing in `s + t` leaves `s` alone when `pat` does not occur in `s` and cannot straddle the
   * joint (one of the two characters at the joint is not in `pat`).
   */
  lemma {:induction false} ReplaceSkips(s: string, t: string, pat: string, rep: string)
    requires pat != []
    requires Absent(s, pat)
    requires s == [] || t == [] || s[|s| - 1] !in pat || t[0] !in pat
    ensures Replace(s + t, pat, rep) == s + Replace(t, pat, rep)
    decreases |s|
  {
    if s == [] {
      assert s + t == t;
    } else if |s + t| < |pat| {
      assert Replace(t, pat, rep) == t;
    } else {
      var u := s + t;
      NotAtStart(s, t, pat);
      assert Replace(u, pat, rep) == [u[0]] + Replace(u[1..], pat, rep);
      AbsentRest(s, pat);
      assert s[1..] == [] || s[1..][|s[1..]| - 1] == s[|s| - 1];
      ReplaceSkips(s[1..], t, pat, rep);
      assert u[1..] == s[1..] + t;
      ConsConcat(s, Replace(t, pat, rep));
    }
  }

  /** Putting the first character back in front of the rest of `s` followed by `r` gives `s + r`. */
  lemma ConsConcat(s: string, r: string)
    requires s != []
    ensures [s[0]] + (s[1..] + r) == s + r
  {
    assert [s[0]] + s[1..] == s;
  }

  /** Under the conditions of `ReplaceSkips`, `s + t` does not start with `pat`. */
  lemma NotAtStart(s: string, t: string, pat: string)
    requires pat != [] && s != [] && |s + t| >= |pat|
    requires Absent(s, pat)
    requires t == [] || s[|s| - 1] !in pat || t[0] !in pat
    ensures (s + t)[..|pat|] != pat
  {
    if (s + t)[..|pat|] == pat {
      assert OccursAt(s + t, pat, 0);
      OccursInConcat(s, t, pat, 0);
      assert false;
    }
  }

  /** Dropping the first character keeps a text free of the pattern. */
  lemma AbsentRest(s: string, pat: string)
    requires s != [] && Absent(s, pat)
    ensures Absent(s[1..], pat)
  {
    forall p | OccursAt(s[1..], pat, p) ensures false {
      assert s[1..][p..p + |pat|] == s[p + 1..p + 1 + |pat|];
      assert OccursAt(s, pat, p + 1);
    }
  }

  /**
   * In `pre + pat + post`, where `pat` occurs in neither piece and cannot straddle either joint,
   * the one occurrence of `pat` is the one between the pieces.
   */
  lemma OnlyOccurrence(pre: string, post: string, pat: string, p: int)
    requires pat != [] && Absent(pre, pat) && Absent(post, pat)
    requires pre == [] || pre[|pre| - 1] !in pat
    requires post == [] || post[0] !in pat
    ensures OccursAt(pre + pat + post, pat, p) <==> p == |pre|
  {
    assert pre + pat + post == pre + (pat + post);
    assert (pat + post)[..|pat|] == pat;
    if OccursAt(pre + pat + post, pat, p) {
      OccursInConcat(pre, pat + post, pat, p);
      OccursInConcat(pat, post, pat, p - |pre|);
    }
  }

  /** Replacing in `pre + pat + post` replaces just that `pat` when `pre` cannot hold or start an occurrence. */
  lemma ReplaceOnce(pre: string, post: string, pat: string, rep: string)
    requires pat != [] && Absent(pre, pat) && Absent(post, pat)
    requires pre == [] || pre[|pre| - 1] !in pat
    ensures Replace(pre + pat + post, pat, rep) == pre + rep + post
  {
    assert pre + pat + post == pre + (pat + post);
    ReplaceSkips(pre, pat + post, pat, rep);
    ReplaceAtStart(post, pat, rep);
    ReplaceAbsent(post, pat, rep);
  }

  /** A text without the pattern is left unchanged. */
  lemma ReplaceAbsent(s: string, pat: string, rep: string)
    requires pat != [] && Absent(s, pat)
    ensures Replace(s, pat, rep) == s
  {
    ReplaceSkips(s, [], pat, rep);
    assert s + [] == s;
  }

  /** A text that starts with the pattern has that occurrence replaced. */
  lemma ReplaceAtStart(t: string, pat: string, rep: string)
    requires pat != []
    ensures Replace(pat + t, pat, rep) == rep + Replace(t, pat, rep)
  {
    assert (pat + t)[..|pat|] == pat;
    assert (pat + t)[|pat|..] == t;
  }
}
