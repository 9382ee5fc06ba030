/**
 * Domain normalisation in the PAC server's request handler: the cached (or fetched) text is split
 * on newlines, each line stripped, blank lines and `#` comments dropped, and the rest deduplicated
 * and sorted.
 */
module Domains {
  import opened Text
  import opened Order

  /** `not s.startswith('#')`. */
  predicate NotComment(s: string) {
    !(s != [] && s[0] == '#')
  }

  /** A stripped line the normalisation keeps: not blank and not a comment. */
  predicate IsEntry(s: string) {
    NonEmpty(s) && NotComment(s)
  }

  /**
   * The domain list built from the cache text: strictly ascending (so sorted and free of
   * duplicates), every entry a stripped, non-blank, non-comment, single-line string.
   */
  function Normalize(text: string): (ds: seq<string>)
    ensures StrictlyAscending(ds)
    ensures forall d :: d in ds ==> IsEntry(d) && IsStripped(d) && '\n' !in d
  {
    var lines := Split(text, '\n');
    var stripped := StripAll(lines);
    var kept := Filter(NotComment, Filter(NonEmpty, stripped));
    StripAllMembers(lines);
    SortedSet(kept)
  }

  /** The list holds exactly the entries some line of `text` strips to: nothing invented, nothing lost. */
  lemma NormalizeMembers(text: string)
    ensures forall d :: d in Normalize(text) <==> IsEntry(d) && exists line :: line in Split(text, '\n') && d == Strip(line)
  {
    StripAllMembers(Split(text, '\n'));
  }

  /**
   * Normalising the newline-joined result again, as the next request does with the cache the
   * handler writes back, gives the same list.
   */
  lemma NormalizeIdempotent(text: string)
    ensures Normalize(Join(Normalize(text), "\n")) == Normalize(text)
  {
    var ds := Normalize(text);
    var cached := Join(ds, "\n");
    NormalizeMembers(cached);
    if ds == [] {
      assert Split(cached, '\n') == [[]];
      assert forall d :: d !in Normalize(cached);
      assert Normalize(cached) == [] by {
        if Normalize(cached) != [] {
          HeadIsElement(Normalize(cached));
          assert false;
        }
      }
    } else {
      SplitJoin(ds, '\n');
      forall d ensures d in Normalize(cached) <==> d in ds {
        if d in ds {
          assert d == Strip(d);
        }
      }
      AscendingUnique(Normalize(cached), ds);
    }
  }

  /**
   * A comment line and a blank line between two domains are dropped: "a.com\n#comment\n \nb.com"
   * normalises to ["a.com", "b.com"] and is cached back as "a.com\nb.com".
   */
  lemma CommentAndBlankDropped(a: string, b: string)
    requires IsEntry(a) && IsStripped(a) && '\n' !in a
    requires IsEntry(b) && IsStripped(b) && '\n' !in b
    requires Less(a, b)
    ensures Normalize(a + "\n#comment\n \n" + b) == [a, b]
    ensures Join(Normalize(a + "\n#comment\n \n" + b), "\n") == a + "\n" + b
  {
    var text := a + "\n#comment\n \n" + b;
    var lines := [a, "#comment", " ", b];
    CommentLines(a, b);
    StripBlank(lines[2]);
    StripComment(lines[1]);
    TwoEntries(text, lines);
    assert Join([a, b], "\n") == a + "\n" + b;
  }

  /** The example text splits into its four lines. */
  lemma CommentLines(a: string, b: string)
    requires '\n' !in a && '\n' !in b
    ensures Split(a + "\n#comment\n \n" + b, '\n') == [a, "#comment", " ", b]
  {
    var lines := [a, "#comment", " ", b];
    assert Join(lines, "\n") == a + "\n#comment\n \n" + b by {
      assert Join(lines[3..], "\n") == b;
      assert Join(lines[2..], "\n") == " \n" + b;
      assert Join(lines[1..], "\n") == "#comment\n \n" + b;
    }
    SplitJoin(lines, '\n');
  }

  /** Four lines of which only the first and last are entries, in ascending order, normalise to those two. */
  lemma TwoEntries(text: string, lines: seq<string>)
    requires Split(text, '\n') == lines && |lines| == 4
    requires Strip(lines[0]) == lines[0] && IsEntry(lines[0])
    requires Strip(lines[3]) == lines[3] && IsEntry(lines[3])
    requires !IsEntry(Strip(lines[1])) && !IsEntry(Strip(lines[2]))
    requires Less(lines[0], lines[3])
    ensures Normalize(text) == [lines[0], lines[3]]
  {
    KeptLine(text, lines, 0);
    KeptLine(text, lines, 3);
    OnlyTwo(text, lines);
    AscendingPair(Normalize(text), lines[0], lines[3]);
  }

  lemma AscendingPair(ds: seq<string>, a: string, b: string)
    requires StrictlyAscending(ds) && a in ds && b in ds && Less(a, b)
    requires forall d :: d in ds ==> d == a || d == b
    ensures ds == [a, b]
  {
    AscendingUnique(ds, [a, b]);
  }

  lemma KeptLine(text: string, lines: seq<string>, k: nat)
    requires Split(text, '\n') == lines && k < |lines|
    requires Strip(lines[k]) == lines[k] && IsEntry(lines[k])
    ensures lines[k] in Normalize(text)
  {
    NormalizeMembers(text);
    assert lines[k] in lines;
  }

  lemma OnlyTwo(text: string, lines: seq<string>)
    requires Split(text, '\n') == lines && |lines| == 4
    requires Strip(lines[0]) == lines[0] && IsEntry(lines[0])
    requires Strip(lines[3]) == lines[3] && IsEntry(lines[3])
    requires !IsEntry(Strip(lines[1])) && !IsEntry(Strip(lines[2]))
    ensures forall d :: d in Normalize(text) ==> d == lines[0] || d == lines[3]
  {
    NormalizeMembers(text);
    forall d | d in Normalize(text) ensures d == lines[0] || d == lines[3] {
      OneOfFour(lines, d);
    }
  }

  lemma OneOfFour(lines: seq<string>, d: string)
    requires |lines| == 4 && IsEntry(d)
    requires exists line :: line in lines && d == Strip(line)
    requires Strip(lines[0]) == lines[0] && IsEntry(lines[0])
    requires Strip(lines[3]) == lines[3] && IsEntry(lines[3])
    requires !IsEntry(Strip(lines[1])) && !IsEntry(Strip(lines[2]))
    ensures d == lines[0] || d == lines[3]
  {
    var line :| line in lines && d == Strip(line);
    var k :| 0 <= k < 4 && lines[k] == line;
  }

  lemma StripComment(s: string)
    requires s == "#comment"
    ensures !IsEntry(Strip(s))
  {
    assert IsStripped(s);
  }

  lemma StripBlank(s: string)
    requires s == " "
    ensures Strip(s) == []
  {
    assert IsSpace(s[0]) && s[1..] == [];
    assert StripLeft(s) == [];
  }
}
