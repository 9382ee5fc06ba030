/**
 * Proxy-list parsing in the PAC server's request handler: the proxy configuration text is split
 * on `;`, each segment stripped and the empty ones dropped; order and repetitions are kept, since
 * the order is the browser's fallback order. The list is written into the script joined by `;`.
 */
module Proxies {
  import opened Text

  /**
   * The proxy directives of `text`: every one stripped, non-empty and free of `;`; they are the
   * non-empty stripped segments in their original order, each as often as it occurs.
   */
  function ParseProxies(text: string): (ps: seq<string>)
    ensures forall p :: p in ps ==> p != [] && IsStripped(p) && ';' !in p
    ensures IsSubsequence(ps, StripAll(Split(text, ';')))
    ensures forall p :: p != [] ==> multiset(ps)[p] == multiset(StripAll(Split(text, ';')))[p]
    ensures forall p :: p in ps <==> p != [] && exists seg :: seg in Split(text, ';') && p == Strip(seg)
  {
    var segments := Split(text, ';');
    StripAllMembers(segments);
    FilterCounts(NonEmpty, StripAll(segments));
    Filter(NonEmpty, StripAll(segments))
  }

  /** `';'.join(proxies)`: the text that replaces the defines marker. */
  function Defines(proxies: seq<string>): (text: string) {
    Join(proxies, ";")
  }

  /** Parsing the joined directives gives them back, so the defines text loses nothing. */
  lemma ParseDefines(proxies: seq<string>)
    requires forall i :: 0 <= i < |proxies| ==> proxies[i] != [] && IsStripped(proxies[i]) && ';' !in proxies[i]
    ensures ParseProxies(Defines(proxies)) == proxies
  {
    var text := Defines(proxies);
    if proxies == [] {
      assert Split(text, ';') == [[]];
      assert StripAll([[]]) == [[]];
    } else {
      SplitJoin(proxies, ';');
      StripAllStripped(proxies);
      FilterKeepsAll(NonEmpty, proxies);
    }
  }

  /** Parsing is idempotent: re-parsing the defines text of a parsed list gives the same list. */
  lemma ParseIdempotent(text: string)
    ensures ParseProxies(Defines(ParseProxies(text))) == ParseProxies(text)
  {
    var ps := ParseProxies(text);
    assert forall i :: 0 <= i < |ps| ==> ps[i] in ps;
    ParseDefines(ps);
  }

  /**
   * The space after a `;` is stripped: "PROXY 127.0.0.1:8118; SOCKS5 127.0.0.1:1080" parses to the
   * two directives, which the script then carries as "PROXY 127.0.0.1:8118;SOCKS5 127.0.0.1:1080".
   */
  lemma SpaceAfterSeparator(a: string, b: string)
    requires a != [] && IsStripped(a) && ';' !in a
    requires b != [] && IsStripped(b) && ';' !in b
    ensures ParseProxies(a + "; " + b) == [a, b]
    ensures Defines(ParseProxies(a + "; " + b)) == a + ";" + b
  {
    var segments := [a, " " + b];
    assert Join(segments, ";") == a + "; " + b;
    SplitJoin(segments, ';');
    assert Strip(" " + b) == b by {
      assert StripLeft(" " + b) == b by {
        assert IsSpace((" " + b)[0]) && (" " + b)[1..] == b;
      }
    }
    assert StripAll(segments) == [a, b];
    FilterKeepsAll(NonEmpty, [a, b]);
    assert Join([a, b], ";") == a + ";" + b;
  }
}
