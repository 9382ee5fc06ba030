/**
 * The PAC script template and the two marker replacements that fill it. The template is a
 * self-invoking `FindProxyForURL` function over two profiles: `+Auto`, whose body receives the
 * compiled rules in place of the rules marker and otherwise answers "DIRECT", and `+PACHost`,
 * which answers "DIRECT" for the local host and otherwise returns the proxy directives written
 * in place of the defines marker.
 *
 * The fixed text is kept in short literal pieces, each with its own character fact, only for the
 * verifier's sake: a character fact about one long literal costs far more to check than the same
 * fact about short pieces joined by `NotInConcat`. The pieces concatenate to the template.
 */
module Template {
  import opened Text

  const RulesMarker := "/*{PROXY-RULES}*/"
  const DefinesMarker := "/*{PROXY-DEFINES}*/"

  /** The wrapper that walks the profile table, up to the table's opening. */
  const Head1 := "\nvar FindProxyForURL = "
  const Head2 := "function (init, profiles) {\n"
  const Head3 := "    return function (url, "
  const Head4 := "host) {\n        \"use "
  const Head5 := "strict\";\n        var result "
  const Head6 := "= init, scheme = "
  const Head7 := "url.substr(0, "
  const Head8 := "url.indexOf(\":\"));\n        "
  const Head9 := "do {\n            result = "
  const Head10 := "profiles[result];\n          "
  const Head11 := "  if (typeof result === "
  const Head12 := "\"function\") result = "
  const Head13 := "result(url, host, scheme);\n "
  const Head14 := "       } while (typeof "
  const Head15 := "result !== \"string\" || "
  const Head16 := "result.charCodeAt(0) === "
  const Head17 := "43);\n        return result;\n"
  const Head18 := "    };\n}(\"+Auto\", {\n"
  const Head := Head1 + Head2 + Head3 + Head4 + Head5 + Head6 + Head7 + Head8 + Head9 + Head10 + Head11 + Head12 + Head13 + Head14 + Head15 + Head16 + Head17 + Head18

  /** The `+Auto` profile up to the rules marker, ending with the marker line's indentation. */
  const AutoOpen1 := "    \"+Auto\": function (url, "
  const AutoOpen2 := "host, scheme) {\n        "
  const AutoOpen3 := "\"use strict\";\n        "
  const AutoOpen := AutoOpen1 + AutoOpen2 + AutoOpen3

  /** The rest of `+Auto` after the rules marker. */
  const AutoClose1 := "\n        return \"DIRECT\";\n  "
  const AutoClose2 := "  },\n"
  const AutoClose := AutoClose1 + AutoClose2

  /** The `+PACHost` profile up to the defines marker, which sits inside the string it returns. */
  const PacHostOpen1 := "    \"+PACHost\": function "
  const PacHostOpen2 := "(url, host, scheme) {\n      "
  const PacHostOpen3 := "  \"use strict\";\n        if "
  const PacHostOpen4 := "(/^127\\.0\\.0\\.1$/.test(host)"
  const PacHostOpen5 := " || /^::1$/.test(host) || "
  const PacHostOpen6 := "/^localhost$/.test(host)) "
  const PacHostOpen7 := "return \"DIRECT\";\n        "
  const PacHostOpen8 := "return \""
  const PacHostOpen := PacHostOpen1 + PacHostOpen2 + PacHostOpen3 + PacHostOpen4 + PacHostOpen5 + PacHostOpen6 + PacHostOpen7 + PacHostOpen8

  /** Everything after the defines marker. */
  const Tail := "\";\n    }\n});\n"

  /** The text before the rules marker and the text between the two markers. */
  const Prefix := Head + AutoOpen
  const Middle := AutoClose + PacHostOpen

  const Template := Prefix + RulesMarker + Middle + DefinesMarker + Tail

  /** The script: the rules marker replaced by `rules`, then the defines marker by `defines`. */
  function Render(rules: string, defines: string): (script: string) {
    Replace(Replace(Template, RulesMarker, rules), DefinesMarker, defines)
  }

  // Character facts about the fixed pieces: none holds a `*`, so none can hold part of a marker.

  lemma NotInConcat(a: string, b: string, c: char)
    requires c !in a && c !in b
    ensures c !in a + b
  {
  }

  lemma LastOfConcat(a: string, b: string)
    requires b != []
    ensures (a + b)[|a + b| - 1] == b[|b| - 1]
  {
  }

  lemma FirstOfConcat(a: string, b: string)
    requires a != []
    ensures (a + b)[0] == a[0]
  {
  }

  lemma Head1Facts() ensures '*' !in Head1 {}
  lemma Head2Facts() ensures '*' !in Head2 {}
  lemma Head3Facts() ensures '*' !in Head3 {}
  lemma Head4Facts() ensures '*' !in Head4 {}
  lemma Head5Facts() ensures '*' !in Head5 {}
  lemma Head6Facts() ensures '*' !in Head6 {}
  lemma Head7Facts() ensures '*' !in Head7 {}
  lemma Head8Facts() ensures '*' !in Head8 {}
  lemma Head9Facts() ensures '*' !in Head9 {}
  lemma Head10Facts() ensures '*' !in Head10 {}
  lemma Head11Facts() ensures '*' !in Head11 {}
  lemma Head12Facts() ensures '*' !in Head12 {}
  lemma Head13Facts() ensures '*' !in Head13 {}
  lemma Head14Facts() ensures '*' !in Head14 {}
  lemma Head15Facts() ensures '*' !in Head15 {}
  lemma Head16Facts() ensures '*' !in Head16 {}
  lemma Head17Facts() ensures '*' !in Head17 {}
  lemma Head18Facts() ensures '*' !in Head18 {}
  lemma HeadFacts()
    ensures '*' !in Head
  {
    Head1Facts();
    Head2Facts();
    Head3Facts();
    Head4Facts();
    Head5Facts();
    Head6Facts();
    Head7Facts();
    Head8Facts();
    Head9Facts();
    Head10Facts();
    Head11Facts();
    Head12Facts();
    Head13Facts();
    Head14Facts();
    Head15Facts();
    Head16Facts();
    Head17Facts();
    Head18Facts();
    NotInConcat(Head1, Head2, '*');
    NotInConcat(Head1 + Head2, Head3, '*');
    NotInConcat(Head1 + Head2 + Head3, Head4, '*');
    NotInConcat(Head1 + Head2 + Head3 + Head4, Head5, '*');
    NotInConcat(Head1 + Head2 + Head3 + Head4 + Head5, Head6, '*');
    NotInConcat(Head1 + Head2 + Head3 + Head4 + Head5 + Head6, Head7, '*');
    NotInConcat(Head1 + Head2 + Head3 + Head4 + Head5 + Head6 + Head7, Head8, '*');
    NotInConcat(Head1 + Head2 + Head3 + Head4 + Head5 + Head6 + Head7 + Head8, Head9, '*');
    NotInConcat(Head1 + Head2 + Head3 + Head4 + Head5 + Head6 + Head7 + Head8 + Head9, Head10, '*');
    NotInConcat(Head1 + Head2 + Head3 + Head4 + Head5 + Head6 + Head7 + Head8 + Head9 + Head10, Head11, '*');
    NotInConcat(Head1 + Head2 + Head3 + Head4 + Head5 + Head6 + Head7 + Head8 + Head9 + Head10 + Head11, Head12, '*');
    NotInConcat(Head1 + Head2 + Head3 + Head4 + Head5 + Head6 + Head7 + Head8 + Head9 + Head10 + Head11 + Head12, Head13, '*');
    NotInConcat(Head1 + Head2 + Head3 + Head4 + Head5 + Head6 + Head7 + Head8 + Head9 + Head10 + Head11 + Head12 + Head13, Head14, '*');
    NotInConcat(Head1 + Head2 + Head3 + Head4 + Head5 + Head6 + Head7 + Head8 + Head9 + Head10 + Head11 + Head12 + Head13 + Head14, Head15, '*');
    NotInConcat(Head1 + Head2 + Head3 + Head4 + Head5 + Head6 + Head7 + Head8 + Head9 + Head10 + Head11 + Head12 + Head13 + Head14 + Head15, Head16, '*');
    NotInConcat(Head1 + Head2 + Head3 + Head4 + Head5 + Head6 + Head7 + Head8 + Head9 + Head10 + Head11 + Head12 + Head13 + Head14 + Head15 + Head16, Head17, '*');
    NotInConcat(Head1 + Head2 + Head3 + Head4 + Head5 + Head6 + Head7 + Head8 + Head9 + Head10 + Head11 + Head12 + Head13 + Head14 + Head15 + Head16 + Head17, Head18, '*');
  }
  lemma AutoOpen1Facts() ensures '*' !in AutoOpen1 {}
  lemma AutoOpen2Facts() ensures '*' !in AutoOpen2 {}
  lemma AutoOpen3Facts() ensures '*' !in AutoOpen3 {}
  lemma AutoOpenFacts()
    ensures '*' !in AutoOpen
  {
    AutoOpen1Facts();
    AutoOpen2Facts();
    AutoOpen3Facts();
    NotInConcat(AutoOpen1, AutoOpen2, '*');
    NotInConcat(AutoOpen1 + AutoOpen2, AutoOpen3, '*');
  }
  lemma AutoClose1Facts() ensures '*' !in AutoClose1 {}
  lemma AutoClose2Facts() ensures '*' !in AutoClose2 {}
  lemma AutoCloseFacts()
    ensures '*' !in AutoClose
  {
    AutoClose1Facts();
    AutoClose2Facts();
    NotInConcat(AutoClose1, AutoClose2, '*');
  }
  lemma PacHostOpen1Facts() ensures '*' !in PacHostOpen1 {}
  lemma PacHostOpen2Facts() ensures '*' !in PacHostOpen2 {}
  lemma PacHostOpen3Facts() ensures '*' !in PacHostOpen3 {}
  lemma PacHostOpen4Facts() ensures '*' !in PacHostOpen4 {}
  lemma PacHostOpen5Facts() ensures '*' !in PacHostOpen5 {}
  lemma PacHostOpen6Facts() ensures '*' !in PacHostOpen6 {}
  lemma PacHostOpen7Facts() ensures '*' !in PacHostOpen7 {}
  lemma PacHostOpen8Facts() ensures '*' !in PacHostOpen8 {}
  lemma PacHostOpenFacts()
    ensures '*' !in PacHostOpen
  {
    PacHostOpen1Facts();
    PacHostOpen2Facts();
    PacHostOpen3Facts();
    PacHostOpen4Facts();
    PacHostOpen5Facts();
    PacHostOpen6Facts();
    PacHostOpen7Facts();
    PacHostOpen8Facts();
    NotInConcat(PacHostOpen1, PacHostOpen2, '*');
    NotInConcat(PacHostOpen1 + PacHostOpen2, PacHostOpen3, '*');
    NotInConcat(PacHostOpen1 + PacHostOpen2 + PacHostOpen3, PacHostOpen4, '*');
    NotInConcat(PacHostOpen1 + PacHostOpen2 + PacHostOpen3 + PacHostOpen4, PacHostOpen5, '*');
    NotInConcat(PacHostOpen1 + PacHostOpen2 + PacHostOpen3 + PacHostOpen4 + PacHostOpen5, PacHostOpen6, '*');
    NotInConcat(PacHostOpen1 + PacHostOpen2 + PacHostOpen3 + PacHostOpen4 + PacHostOpen5 + PacHostOpen6, PacHostOpen7, '*');
    NotInConcat(PacHostOpen1 + PacHostOpen2 + PacHostOpen3 + PacHostOpen4 + PacHostOpen5 + PacHostOpen6 + PacHostOpen7, PacHostOpen8, '*');
  }
  lemma TailFacts() ensures '*' !in Tail {}

  lemma PrefixFacts()
    ensures Prefix != [] && Prefix[|Prefix| - 1] == ' '
    ensures '*' !in Prefix
  {
    HeadFacts();
    AutoOpenFacts();
    NotInConcat(Head, AutoOpen, '*');
    LastOfConcat(AutoOpen1 + AutoOpen2, AutoOpen3);
    LastOfConcat(Head, AutoOpen);
  }

  lemma MiddleFacts()
    ensures Middle != [] && Middle[0] == '\n' && Middle[|Middle| - 1] == '"'
    ensures '*' !in Middle
  {
    AutoCloseFacts();
    PacHostOpenFacts();
    NotInConcat(AutoClose, PacHostOpen, '*');
    FirstOfConcat(AutoClose1, AutoClose2);
    FirstOfConcat(AutoClose, PacHostOpen);
    LastOfConcat(PacHostOpen1 + PacHostOpen2 + PacHostOpen3 + PacHostOpen4 + PacHostOpen5 + PacHostOpen6 + PacHostOpen7, PacHostOpen8);
    LastOfConcat(AutoClose, PacHostOpen);
  }

  lemma TailEnds()
    ensures Tail != [] && Tail[0] == '"'
  {
  }

  /** The characters of the markers that tell them apart from the fixed text and from each other. */
  lemma RulesMarkerFacts()
    ensures RulesMarker != [] && RulesMarker[1] == '*' && RulesMarker[10] == 'U' && 'N' !in RulesMarker
    ensures ' ' !in RulesMarker && '\n' !in RulesMarker && '"' !in RulesMarker
  {
  }

  lemma DefinesMarkerFacts()
    ensures DefinesMarker != [] && DefinesMarker[1] == '*' && DefinesMarker[13] == 'N' && 'U' !in DefinesMarker
    ensures ' ' !in DefinesMarker && '\n' !in DefinesMarker && '"' !in DefinesMarker
  {
  }

  lemma Regroup(a: string, b: string, c: string, d: string, e: string)
    ensures a + b + c + d + e == a + b + (c + d + e)
  {
  }

  lemma RegroupAuto(head: string, open: string, close: string, host: string, defines: string, tail: string)
    ensures (head + open) + [] + (close + host) + defines + tail == head + (open + close) + host + defines + tail
  {
  }

  /** The text after the rules marker holds no rules marker. */
  lemma AfterRules()
    ensures Absent(Middle + DefinesMarker + Tail, RulesMarker)
  {
    MiddleFacts();
    TailFacts();
    TailEnds();
    RulesMarkerFacts();
    DefinesMarkerFacts();
    AbsentByChar(Middle, RulesMarker, 1);
    AbsentByChar(DefinesMarker, RulesMarker, 10);
    AbsentByChar(Tail, RulesMarker, 1);
    AbsentConcat(Middle, DefinesMarker, RulesMarker);
    AbsentConcat(Middle + DefinesMarker, Tail, RulesMarker);
  }

  /** In `pre + rm + mid + dm + tail`, with no other `rm` and none straddling a joint, `rm` occurs just after `pre`. */
  lemma FirstOnce(pre: string, rm: string, mid: string, dm: string, tail: string, p: int)
    requires rm != [] && Absent(pre, rm) && (pre == [] || pre[|pre| - 1] !in rm)
    requires Absent(mid + dm + tail, rm) && mid != [] && mid[0] !in rm
    ensures OccursAt(pre + rm + mid + dm + tail, rm, p) <==> p == |pre|
  {
    Regroup(pre, rm, mid, dm, tail);
    FirstOfConcat(mid, dm + tail);
    assert mid + dm + tail == mid + (dm + tail);
    OnlyOccurrence(pre, mid + dm + tail, rm, p);
  }

  /** The rules marker occurs in the template once, right after the prefix. */
  lemma RulesMarkerOnce(p: int)
    ensures OccursAt(Template, RulesMarker, p) <==> p == |Prefix|
  {
    RulesSetting();
    FirstOnce(Prefix, RulesMarker, Middle, DefinesMarker, Tail, p);
  }

  /** The rules marker occurs neither before nor after its place, nor across either joint. */
  lemma RulesSetting()
    ensures RulesMarker != [] && Absent(Prefix, RulesMarker) && Prefix != [] && Prefix[|Prefix| - 1] !in RulesMarker
    ensures Absent(Middle + DefinesMarker + Tail, RulesMarker) && Middle != [] && Middle[0] !in RulesMarker
  {
    PrefixFacts();
    MiddleFacts();
    RulesMarkerFacts();
    AfterRules();
    AbsentByChar(Prefix, RulesMarker, 1);
  }

  /** The text before the defines marker cannot contain it, whatever rules fill the first marker. */
  lemma BeforeDefines(rules: string)
    requires Absent(rules, DefinesMarker)
    ensures Absent(Prefix + rules + Middle, DefinesMarker)
  {
    PrefixFacts();
    MiddleFacts();
    RulesMarkerFacts();
    DefinesMarkerFacts();
    AbsentByChar(Prefix, DefinesMarker, 1);
    AbsentByChar(Middle, DefinesMarker, 1);
    AbsentConcat(Prefix, rules, DefinesMarker);
    AbsentConcat(Prefix + rules, Middle, DefinesMarker);
  }

  /** In `pre + rm + mid + dm + tail`, with no other `dm` and none straddling a joint, `dm` occurs just after `mid`. */
  lemma SecondOnce(pre: string, rm: string, mid: string, dm: string, tail: string, p: int)
    requires dm != [] && Absent(pre + rm + mid, dm) && Absent(tail, dm)
    requires mid != [] && mid[|mid| - 1] !in dm && (tail == [] || tail[0] !in dm)
    ensures OccursAt(pre + rm + mid + dm + tail, dm, p) <==> p == |pre + rm + mid|
  {
    LastOfConcat(pre + rm, mid);
    OnlyOccurrence(pre + rm + mid, tail, dm, p);
  }

  /** The defines marker occurs in the template once, right after the prefix, rules marker and middle. */
  lemma DefinesMarkerOnce(p: int)
    ensures OccursAt(Template, DefinesMarker, p) <==> p == |Prefix + RulesMarker + Middle|
  {
    DefinesSetting();
    SecondOnce(Prefix, RulesMarker, Middle, DefinesMarker, Tail, p);
  }

  /** The defines marker occurs neither before nor after its place, nor across either joint. */
  lemma DefinesSetting()
    ensures DefinesMarker != [] && Absent(Prefix + RulesMarker + Middle, DefinesMarker) && Absent(Tail, DefinesMarker)
    ensures Middle != [] && Middle[|Middle| - 1] !in DefinesMarker && Tail != [] && Tail[0] !in DefinesMarker
  {
    MiddleFacts();
    TailFacts();
    TailEnds();
    DefinesMarkerFacts();
    AbsentByChar(RulesMarker, DefinesMarker, 13);
    BeforeDefines(RulesMarker);
    AbsentByChar(Tail, DefinesMarker, 1);
  }

  /** Replacing `rm` in `pre + rm + mid + dm + tail`, where it occurs once, puts `rules` in its place. */
  lemma FillFirst(pre: string, rm: string, mid: string, dm: string, tail: string, rules: string)
    requires rm != []
    requires Absent(pre, rm) && (pre == [] || pre[|pre| - 1] !in rm)
    requires Absent(mid + dm + tail, rm)
    ensures Replace(pre + rm + mid + dm + tail, rm, rules) == (pre + rules + mid) + dm + tail
  {
    Regroup(pre, rm, mid, dm, tail);
    ReplaceOnce(pre, mid + dm + tail, rm, rules);
    Regroup(pre, rules, mid, dm, tail);
  }

  /** Replacing `dm` in `(pre + rules + mid) + dm + tail`, where it occurs once, puts `defines` in its place. */
  lemma FillSecond(pre: string, rules: string, mid: string, dm: string, tail: string, defines: string)
    requires dm != []
    requires Absent(pre + rules + mid, dm) && Absent(tail, dm)
    requires mid != [] && mid[|mid| - 1] !in dm
    ensures Replace((pre + rules + mid) + dm + tail, dm, defines) == pre + rules + mid + defines + tail
  {
    LastOfConcat(pre + rules, mid);
    ReplaceOnce(pre + rules + mid, tail, dm, defines);
  }

  /**
   * When the rules text does not itself contain the defines marker, the script is the template
   * with each marker replaced by its text and nothing else changed.
   */
  lemma RenderShape(rules: string, defines: string)
    requires Absent(rules, DefinesMarker)
    ensures Render(rules, defines) == Prefix + rules + Middle + defines + Tail
  {
    RulesSetting();
    DefinesSetting();
    BeforeDefines(rules);
    FillFirst(Prefix, RulesMarker, Middle, DefinesMarker, Tail, rules);
    FillSecond(Prefix, rules, Middle, DefinesMarker, Tail, defines);
  }

  /** The `+Auto` profile as emitted when there are no rules. */
  const AutoWithoutRules :=
    "    \"+Auto\": function (url, " + "host, scheme) {\n        " + "\"use strict\";\n        " +
    "\n        return \"DIRECT\";\n  " + "  },\n"

  lemma AutoJoined()
    ensures AutoOpen + AutoClose == AutoWithoutRules
  {
  }

  /** With no rules, the `+Auto` body is the strict-mode line, a blank line and `return "DIRECT";`. */
  lemma RenderWithoutRules(rules: string, defines: string)
    requires rules == []
    ensures Render(rules, defines) == Head + AutoWithoutRules + PacHostOpen + defines + Tail
  {
    assert Absent(rules, DefinesMarker);
    RenderShape(rules, defines);
    AutoJoined();
    RegroupAuto(Head, AutoOpen, AutoClose, PacHostOpen, defines, Tail);
  }
}
