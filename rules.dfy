/**
 * Rule compilation: every normalised domain becomes one line of JavaScript that sends the host
 * to the `+PACHost` profile when it is the domain itself or one of its sub-domains. The domain is
 * spliced into a regular-expression literal with each `.` escaped as `\.`.
 */
module Rules {
  import opened Text

  /** Reference escaping, one character at a time: `.` becomes `\.`, every other character stays. */
  function EscapeChars(d: string): (e: string) {
    if d == [] then []
    else (if d[0] == '.' then "\\." else [d[0]]) + EscapeChars(d[1..])
  }

  /** Undoes the escaping: `\.` becomes `.`, every other character is copied. */
  function Unescape(e: string): (d: string) {
    if e == [] then []
    else if |e| >= 2 && e[0] == '\\' && e[1] == '.' then "." + Unescape(e[2..])
    else [e[0]] + Unescape(e[1..])
  }

  /**
   * `str.replace(d, '.', r'\.')`. The escaped domain decodes back to the domain, so escaping
   * changes nothing but the dots; every `.` in it is preceded by a `\`; and it holds no character
   * the domain lacks, except `\`.
   */
  function Escape(d: string): (e: string)
    ensures e == EscapeChars(d)
    ensures Unescape(e) == d
    ensures DotsPrefixed(e)
    ensures forall c :: c in e ==> c in d || c == '\\'
  {
    EscapeIsPerChar(d);
    UnescapeEscape(d);
    DotsEscaped(d);
    EscapeCharsFrom(d);
    Replace(d, ".", "\\.")
  }

  /** Replacing `.` scans the domain one character at a time, as the reference escaping does. */
  lemma {:induction false} EscapeIsPerChar(d: string)
    ensures Replace(d, ".", "\\.") == EscapeChars(d)
    decreases |d|
  {
    if d != [] {
      EscapeIsPerChar(d[1..]);
      if d[0] == '.' {
        assert d[..1] == ".";
      } else {
        assert d[..1] != ".";
      }
    }
  }

  /** An escaped text never starts with a bare `.`. */
  lemma EscapeStart(d: string)
    requires d != []
    ensures EscapeChars(d) != [] && EscapeChars(d)[0] != '.'
  {
  }

  lemma {:induction false} UnescapeEscape(d: string)
    ensures Unescape(EscapeChars(d)) == d
    decreases |d|
  {
    if d != [] {
      var rest := EscapeChars(d[1..]);
      UnescapeEscape(d[1..]);
      if d[0] == '.' {
        assert ("\\." + rest)[2..] == rest;
      } else {
        if rest != [] {
          EscapeStart(d[1..]);
        }
        assert ([d[0]] + rest)[1..] == rest;
      }
      assert d == [d[0]] + d[1..];
    }
  }

  /** Every `.` of `e` comes straight after a `\`. */
  predicate DotsPrefixed(e: string) {
    forall i :: 0 <= i < |e| && e[i] == '.' ==> 0 < i && e[i - 1] == '\\'
  }

  lemma {:induction false} DotsEscaped(d: string)
    ensures DotsPrefixed(EscapeChars(d))
    decreases |d|
  {
    if d != [] {
      DotsEscaped(d[1..]);
      var rest := EscapeChars(d[1..]);
      var e := EscapeChars(d);
      var h := if d[0] == '.' then "\\." else [d[0]];
      assert e == h + rest;
      forall i | 0 <= i < |e| && e[i] == '.'
        ensures 0 < i && e[i - 1] == '\\'
      {
        if i >= |h| {
          assert e[i] == rest[i - |h|];
          if i == |h| {
            assert false;
          }
          var j := i - |h|;
          assert 0 <= j < |rest| && rest[j] == '.';
          assert 0 < j && rest[j - 1] == '\\';
          assert e[i - 1] == rest[j - 1];
        } else {
          assert h == "\\." && i == 1;
          assert e[0] == h[0];
        }
      }
    }
  }

  lemma {:induction false} EscapeCharsFrom(d: string)
    ensures forall c :: c in EscapeChars(d) ==> c in d || c == '\\'
    decreases |d|
  {
    if d != [] {
      EscapeCharsFrom(d[1..]);
      var h := if d[0] == '.' then "\\." else [d[0]];
      forall c | c in EscapeChars(d)
        ensures c in d || c == '\\'
      {
        assert c in h || c in EscapeChars(d[1..]);
        if c in EscapeChars(d[1..]) && c != '\\' {
          assert c in d[1..];
        }
      }
    }
  }

  /** The text before and after the escaped domain on every rule line. */
  const RuleHead := "if (/(?:^|\\.)"
  const RuleTail := "$/.test(host)) return \"+PACHost\";"

  /** The rule line for one domain. */
  function RuleLine(d: string): (line: string)
    ensures forall c :: c in line ==> c in RuleHead || c in RuleTail || c in d || c == '\\'
  {
    RuleHead + Escape(d) + RuleTail
  }

  /** The rule lines, one per domain, in the order of the domains. */
  function RuleLines(ds: seq<string>): (lines: seq<string>)
    ensures |lines| == |ds|
    ensures forall i :: 0 <= i < |ds| ==> lines[i] == RuleLine(ds[i])
  {
    if ds == [] then [] else [RuleLine(ds[0])] + RuleLines(ds[1..])
  }

  /** `'\n'.join` of the rule lines: the text that replaces the rules marker. Empty exactly when there are no domains. */
  function CompileRules(ds: seq<string>): (rules: string)
    ensures rules == [] <==> ds == []
  {
    EmptyRules(ds);
    Join(RuleLines(ds), "\n")
  }

  lemma EmptyRules(ds: seq<string>)
    ensures Join(RuleLines(ds), "\n") == [] <==> ds == []
  {
    if ds != [] {
      var lines := RuleLines(ds);
      assert |lines[0]| > 0;
    }
  }

  lemma NoNewlineInFrame()
    ensures '\n' !in RuleHead && '\n' !in RuleTail && '\\' != '\n'
  {
  }

  lemma NoStarInFrame()
    ensures '*' !in RuleHead && '*' !in RuleTail
  {
  }

  /**
   * The compiled rules read back, line by line, as exactly one rule line per domain, in the order
   * of the domains, provided no domain holds a line break (normalised domains never do).
   */
  lemma CompileRulesLines(ds: seq<string>)
    requires ds != []
    requires forall d :: d in ds ==> '\n' !in d
    ensures var lines := Split(CompileRules(ds), '\n');
      |lines| == |ds| &&
      forall i :: 0 <= i < |ds| ==> lines[i] == RuleHead + Escape(ds[i]) + RuleTail
  {
    var lines := RuleLines(ds);
    NoNewlineInFrame();
    forall i | 0 <= i < |lines|
      ensures '\n' !in lines[i]
    {
      assert ds[i] in ds;
    }
    SplitJoin(lines, '\n');
  }

  /** The rules text holds a `*` only if some domain does: it cannot open or close a comment marker by itself. */
  lemma RulesWithoutStar(ds: seq<string>)
    requires forall d :: d in ds ==> '*' !in d
    ensures '*' !in CompileRules(ds)
  {
    var lines := RuleLines(ds);
    NoStarInFrame();
    forall i | 0 <= i < |lines|
      ensures '*' !in lines[i]
    {
      assert ds[i] in ds;
    }
    if '*' in Join(lines, "\n") {
      JoinChars(lines, "\n", '*');
      assert false;
    }
  }
}
