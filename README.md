# pyAutoProxy: the PAC script pipeline

pyAutoProxy serves a Proxy Auto-Configuration (PAC) script over HTTP. On every request,
`ServerHandler.merage` builds the script in four steps:

1. It reads the domain list from `domains.txt`. If that file is missing, it fetches the list from
   the project's GitHub URL and writes it to the cache; an HTTP error gives the empty text.
2. It normalises the list: split into lines, strip each line, drop blank lines and `#` comments,
   deduplicate and sort. The result is written back to the cache.
3. It reads the proxy directives from `proxies.txt`. If that file is missing, it prompts on the
   console until a non-blank line is entered and saves that line (on Windows; see "Left out").
4. It fills the fixed `FindProxyForURL` template:
   - `/*{PROXY-RULES}*/` becomes one `if (/(?:^|\.)<domain>$/.test(host)) return "+PACHost";` line
     per domain, with the dots escaped.
   - `/*{PROXY-DEFINES}*/` becomes the directives joined by `;`.

The model has these modules:

- `Text`: Python's `str.strip` (the `str.isspace` set), `split`, `join` and `replace`, plus
  `filter`.
- `Order`: code-point string order and `sorted(set(..))`.
- `Domains`: normalisation.
- `Proxies`: parsing of the directives.
- `Rules`: escaping and rule compilation.
- `Template`: the template as literal text, and `Render` for the two replacements.
- `Server`: the request itself, in two forms.
  - Functions of the file store and of the outside world: `Sources` (the two texts a request
    works from), `MerageResult` and `MerageFiles`.
  - A class `Host`, whose `files` map is the directory holding the two cache files. Its methods
    (`ReadElseFetch`, `ReadElseWrite`, `SettleDomains`, `SettleProxies`, `SettleSources`,
    `Merage`) update that map in place and are proved against those functions.

The outside world is given to these members as parameters:

- The network fetch is a `FetchOutcome`: `Fetched(body)`, `HttpError` or `OtherFailure`.
- The console is the sequence of lines the user types.

`Host.fetched` records the URLs fetched, so that "no fetch on a cache hit" can be stated.

## Model

| member | source | states |
|---|---|---|
| Text.Strip | pyAutoProxy.py:144 | `str.strip`: the result has no leading or trailing whitespace, holds only characters of the input, and an already stripped text is unchanged |
| Text.StripTrims | pyAutoProxy.py:144 | the stripped text is the input with a whitespace-only prefix and suffix removed |
| Text.Split | pyAutoProxy.py:143 | `str.split(sep)`: at least one piece, and no piece holds the separator; `JoinSplit` and `SplitJoin` tie it to `Join` |
| Text.Join | pyAutoProxy.py:148 | `sep.join(parts)`: with `Split` it round-trips both ways (`JoinSplit`, `SplitJoin`), and each of its characters comes from a part or the separator (`JoinChars`) |
| Text.JoinSplit | pyAutoProxy.py:143 | `'\n'.join(s.split('\n')) == s`: splitting loses nothing |
| Text.SplitJoin | pyAutoProxy.py:148 | splitting a join of separator-free parts gives the parts back |
| Text.StripAll | pyAutoProxy.py:144 | `map(str.strip, lines)`: the same number of lines, in order, each one stripped; `StripAllMembers` states which strings result |
| Text.Filter | pyAutoProxy.py:145-146 | `filter` keeps exactly the elements satisfying the predicate, in their original order |
| Text.FilterCounts | pyAutoProxy.py:163 | `filter` keeps every kept element as often as it occurs and drops every other one |
| Text.Replace | pyAutoProxy.py:166-171 | `str.replace`: left to right, non-overlapping, inserted text not rescanned; `ReplaceOnce`, `ReplaceAbsent` and `Rules.EscapeIsPerChar` state what it gives |
| Text.ReplaceOnce | pyAutoProxy.py:170-171 | `str.replace` on a text holding the pattern exactly once puts the replacement in its place and changes nothing else |
| Text.ReplaceAbsent | pyAutoProxy.py:170-171 | `str.replace` of a pattern that does not occur leaves the text unchanged |
| Order.SortedSet | pyAutoProxy.py:147 | `sorted(set(xs))`: strictly ascending, with the same members as `xs` |
| Order.SortedSetOfAscending | pyAutoProxy.py:147 | `sorted(set(xs))` gives a strictly ascending list back unchanged |
| Order.AscendingUnique | pyAutoProxy.py:147 | two strictly ascending lists with the same members are equal, so the order is the only one possible |
| Order.LessTotal | pyAutoProxy.py:147 | the string order compares every pair of distinct strings |
| Domains.Normalize | pyAutoProxy.py:143-147 | the normalised domain list is strictly ascending (sorted, no duplicates); every entry is non-empty, stripped, not a `#` comment and a single line |
| Domains.NormalizeMembers | pyAutoProxy.py:143-147 | a string is in the list exactly when it is a non-blank, non-comment stripped line of the input |
| Domains.NormalizeIdempotent | pyAutoProxy.py:143-148 | normalising the `'\n'.join` written back to the cache gives the same list |
| Domains.CommentAndBlankDropped | pyAutoProxy.py:143-148 | `"a\n#comment\n \nb"` normalises to `[a, b]` and is cached as `"a\nb"` |
| Proxies.ParseProxies | pyAutoProxy.py:161-164 | each directive is stripped, non-empty and free of `;`; the directives are the non-empty stripped segments in input order, each as often as it occurs |
| Proxies.Defines | pyAutoProxy.py:171 | `';'.join(proxies)`: parsing it back gives the directives (`ParseDefines`) |
| Proxies.ParseDefines | pyAutoProxy.py:161-171 | parsing the `;`-joined defines text gives the directives back |
| Proxies.ParseIdempotent | pyAutoProxy.py:161-171 | re-parsing the defines text of a parsed list gives the same list |
| Proxies.SpaceAfterSeparator | pyAutoProxy.py:155-171 | the prompt's example `"A; B"` parses to `[A, B]` and is written into the script as `"A;B"` |
| Rules.Escape | pyAutoProxy.py:166 | `replace('.', r'\.')` equals per-character escaping; the result unescapes to the domain, every `.` in it follows a `\`, and it adds no character but `\` |
| Rules.EscapeIsPerChar | pyAutoProxy.py:166 | the left-to-right replace of `.` agrees with the per-character reference escaping |
| Rules.UnescapeEscape | pyAutoProxy.py:166 | escaping is injective: unescaping it gives the domain back |
| Rules.RuleLine | pyAutoProxy.py:166-168 | one rule line holds only characters of its fixed frame, of the domain and `\`; `CompileRulesLines` reads each line back as frame + escaped domain |
| Rules.RuleLines | pyAutoProxy.py:166-168 | one rule line per domain, in the order of the domains |
| Rules.CompileRules | pyAutoProxy.py:166-169 | the rules text is empty exactly when there are no domains |
| Rules.CompileRulesLines | pyAutoProxy.py:166-169 | the rules text splits back into one `if (/(?:^\|\.)` + escaped domain + `$/.test(host)) return "+PACHost";` line per domain, in order |
| Rules.RulesWithoutStar | pyAutoProxy.py:166-169 | the rules text holds no `*` when no domain does, so it cannot contain either marker |
| Template.RulesMarkerOnce | pyAutoProxy.py:117-141 | the template holds `/*{PROXY-RULES}*/` exactly once |
| Template.DefinesMarkerOnce | pyAutoProxy.py:117-141 | the template holds `/*{PROXY-DEFINES}*/` exactly once, after the rules marker |
| Template.Render | pyAutoProxy.py:170-171 | the two `template.replace` calls in order; `RenderShape` and `RenderWithoutRules` state what they give |
| Template.RenderShape | pyAutoProxy.py:117-171 | when the rules text does not contain the defines marker, the output is the template with each marker replaced by its text and nothing else changed |
| Template.RenderWithoutRules | pyAutoProxy.py:117-171 | with no rules the `+Auto` profile only returns `"DIRECT"` |
| Server.FetchOrDefault | pyAutoProxy.py:108-113 | a cache miss fails exactly on a fetch failure that is not an HTTP error; otherwise it yields the body, or the fallback text on an HTTP error |
| Server.DomainsSource | pyAutoProxy.py:104-115 | the domain text `read_else_fetch` returns: the cached file, else the fetched body, `""` on an HTTP error, or a failure; `Host.SettleDomains` computes it |
| Server.DomainsFiles | pyAutoProxy.py:142-148 | the store after the domain block: the normalised list written back on success, untouched on failure; `Host.SettleDomains` leaves it and `CachedAfter` states what `domains.txt` then holds |
| Server.ProxiesSource | pyAutoProxy.py:150-159 | the proxy text: the cached file, else the first non-blank entered line; `DomainsFilesKeepProxies` shows the domain write does not change it |
| Server.ProxiesFiles | pyAutoProxy.py:150-159 | the store after the proxy block: an entered line saved to `proxies.txt`; `Host.SettleProxies` leaves exactly this store |
| Server.Sources | pyAutoProxy.py:142-159 | the two texts a request works from, or why it has none; `Host.SettleSources` computes it, and `CachedAfter`, `RepeatSources` and `SettledStore` state what it gives once the store is settled |
| Server.PacScript | pyAutoProxy.py:143-171 | the script from a domain text and a proxy text; `PacScriptShape`, `ScriptWithoutDomains` and `PacScriptNormalized` state its shape |
| Server.MerageResult | pyAutoProxy.py:103-172 | the answer to one request as a function of the files, the fetch and the console; `Host.Merage` computes it and `RepeatRequest` shows it stable |
| Server.MerageFiles | pyAutoProxy.py:103-172 | the files after one request; `Host.Merage` leaves exactly these and `CachedAfter` states what the two files then hold |
| Server.FirstEntered | pyAutoProxy.py:153-159 | the prompt settles on the first line that is not blank once stripped, stripped; it has no answer exactly when every line is blank |
| Server.PromptProxy | pyAutoProxy.py:153-159 | the prompt loop returns what `FirstEntered` describes, a non-empty stripped line |
| Server.PacScriptShape | pyAutoProxy.py:143-171 | when no normalised domain entry holds a `*` (comment and blank lines may), the script is the template with the compiled rules and the joined directives in the marker positions |
| Server.ScriptWithoutDomains | pyAutoProxy.py:143-171 | a domain text with no entries gives the script whose `+Auto` profile only returns `"DIRECT"` |
| Server.PacScriptNormalized | pyAutoProxy.py:143-148 | the script built from the cached list equals the script built from the original text |
| Server.RepeatSources | pyAutoProxy.py:104-159 | after a request that found both texts, a later request works from the normalised domain list and the same proxy text, whatever the network and the console would give, and leaves the files unchanged |
| Server.SettledStore | pyAutoProxy.py:142-159 | a store holding both files, with `domains.txt` already normalised, gives the request exactly those two texts and is left unchanged by it |
| Server.RepeatRequest | pyAutoProxy.py:103-172 | after a successful request, any later request is answered with the same script and leaves the files unchanged, whatever the network and the console would give |
| Server.CachedAfter | pyAutoProxy.py:142-158 | after a request that found both texts, `domains.txt` holds the normalised list, one per line, and `proxies.txt` the proxy text used |
| Server.NormalizeEmpty | pyAutoProxy.py:143-148 | the empty domain text has no entries and is cached as the empty text |
| Server.HttpErrorSources | pyAutoProxy.py:104-148 | an HTTP error on an uncached domain list makes the request work from the empty domain text and caches that text |
| Server.HttpErrorScript | pyAutoProxy.py:104-171 | an HTTP error on an uncached domain list caches the empty list and yields a script without rules |
| Server.OtherFailureFails | pyAutoProxy.py:104-115 | any other fetch failure yields no script and leaves the files untouched |
| Server.DomainsFilesKeepProxies | pyAutoProxy.py:148-151 | rewriting `domains.txt` does not change what `proxies.txt` gives |
| Server.Host.ReadElseFetch | pyAutoProxy.py:104-115 | a cache hit returns the cached text with no fetch and no write; on a miss the URL is fetched once, and the body (or the default on an HTTP error) is returned and written; any other failure fails with no write |
| Server.Host.ReadElseWrite | pyAutoProxy.py:72-86 | reading wanted and the file present: its content, files unchanged; otherwise the default is written and returned; either way the file then holds the returned content |
| Server.Host.SettleDomains | pyAutoProxy.py:142-148 | the domain text is the cached or fetched one, and the cache is left holding its normalised list |
| Server.Host.SettleProxies | pyAutoProxy.py:150-159 | the proxy text is the cached one, or else the first non-blank line entered, which is then saved |
| Server.Host.SettleSources | pyAutoProxy.py:142-159 | the two texts a request works from, and the files and fetch log after settling them, are exactly those given by `Sources`, `MerageFiles` and one fetch on a cache miss |
| Server.Host.Merage | pyAutoProxy.py:103-172 | the answer, the files and the fetch log after one request are exactly those given by `MerageResult`, `MerageFiles` and one fetch on a cache miss |

## Left out

- HTTP handling is not modelled: `do_GET`, the headers, the random `.pac` file name, `log_message`,
  the server thread and the command line. It is plumbing around `merage`.
- Real file and network I/O is not modelled. The file store is a map, and the fetch is the
  outcome given as a parameter: a decoded body, an HTTP error or any other failure. The
  User-Agent header and UTF-8 decoding happen inside the fetch.
- The console is the sequence of typed lines. An input that ends before a non-blank line makes the
  request fail with `InputClosed`, which is how Python's `EOFError` ends the real prompt loop.
- Server.PromptProxy: the prompt is modelled as it runs on Windows. `flash()` (pyAutoProxy.py:174-179)
  reads `ctypes.windll`, which exists only on Windows, and catches only `ImportError`. Elsewhere its
  `AttributeError` escapes before any prompt, the `finally` block then reads the unbound `proxies`,
  and a missing `proxies.txt` fails the request after `domains.txt` has been rewritten. On those
  systems the request behaves as the model does with `inputs == []`, whatever is typed.
- Two behaviours of the code:
  - Only `HTTPError` is absorbed as the empty domain text. Any other fetch failure (`URLError`, a
    timeout) leaves `content` unbound in `read_else_fetch`, so the request fails with `FetchFailed`
    and nothing is written.
  - On a missing `proxies.txt` the handler prompts on the console. It never answers with an error
    of its own.
- Failures of reading or writing other than a missing file are not modelled.
- Server.RepeatRequest: the file store returns exactly the text written to it. The source reads
  its files in text mode (pyAutoProxy.py:36 and :78), and universal newlines turn a `\r` or `\r\n`
  into `\n` on read. That translation is not modelled. So `RepeatRequest` and `RepeatSources` hold
  for the source only when no normalised domain and no entered proxy line contains `\r`. A fetched
  body `"a.com\rb.com"` gives one entry on the first request and two on the next.
- `ReadElseWrite` does not model a callable `default`, which the source calls before writing.
  Nothing in the program calls `read_else_write`.
- `Text.Replace` requires a non-empty pattern. Every `replace` in the pipeline has one, and
  Python's rule for an empty pattern is not modelled.
- How the emitted JavaScript behaves (regular-expression matching and the profile loop) is not
  modelled. The model states the text that is emitted.
- Template.RenderShape: requires that the rules text does not contain `/*{PROXY-DEFINES}*/`. A
  domain line containing that marker would have it replaced by the proxy text as well. `Render`
  models that case as the code does, but the shape lemma does not describe it.
- Rules.Escape: escapes only `.`, as the code does. Other regular-expression metacharacters in a
  domain reach the emitted pattern unchanged.
- Concurrent requests racing on `domains.txt` are not modelled. Each `Merage` call is one whole
  request.
