/**
 * The request handler's script assembly (`merage`) and the cache helpers it relies on. The two
 * configuration files live in a directory modelled as a map from file name to content; the network
 * fetch of the domain list and the console prompt for a proxy are given as inputs, since they are
 * outside the program.
 */
module Server {
  import opened Wrappers
  import opened Text
  import opened Domains
  import opened Proxies
  import opened Rules
  import opened Template

  const DomainsFile := "domains.txt"
  const ProxiesFile := "proxies.txt"
  const DomainsUrl := "https://github.com/zungmou/" + "pyAutoProxy/raw/master/domains.txt"

  lemma FileNamesDiffer()
    ensures DomainsFile != ProxiesFile
  {
    assert DomainsFile[0] != ProxiesFile[0];
  }

  /** What fetching a URL gives: the decoded body, an HTTP error status, or any other failure. */
  datatype FetchOutcome = Fetched(body: string) | HttpError | OtherFailure

  /** Why a request produced no script: a fetch failure that is not an HTTP error, or the console closed. */
  datatype Failure = FetchFailed | InputClosed

  /** The content a cache miss yields: the body, the fallback text on an HTTP error, or a failure. */
  function FetchOrDefault(outcome: FetchOutcome, failDefault: string): (r: Result<string, Failure>)
    ensures r.Failure? <==> outcome.OtherFailure?
    ensures r.Success? ==> r.value == (if outcome.Fetched? then outcome.body else failDefault)
  {
    match outcome
    case Fetched(body) => Success(body)
    case HttpError => Success(failDefault)
    case OtherFailure => Failure(FetchFailed)
  }

  /**
   * The proxy text the console prompt settles on: the first line that is not blank once stripped,
   * stripped; `None` when the input ends first.
   */
  function FirstEntered(inputs: seq<string>): (r: Option<string>)
    ensures r.None? <==> forall j :: 0 <= j < |inputs| ==> Strip(inputs[j]) == []
    ensures r.Some? ==>
      exists k :: 0 <= k < |inputs| && r.value == Strip(inputs[k]) && r.value != [] &&
        (forall j :: 0 <= j < k ==> Strip(inputs[j]) == [])
  {
    if inputs == [] then None
    else if Strip(inputs[0]) != [] then Some(Strip(inputs[0]))
    else FirstEnteredLater(inputs); FirstEntered(inputs[1..])
  }

  /** The first line is blank, so the answer lies in the rest, one position later. */
  lemma FirstEnteredLater(inputs: seq<string>)
    requires inputs != [] && Strip(inputs[0]) == []
    ensures forall j :: 1 <= j < |inputs| ==> inputs[j] == inputs[1..][j - 1]
  {
  }

  /** The loop prompting for a proxy until a non-blank line is entered; `None` when the input ends. */
  method PromptProxy(inputs: seq<string>) returns (r: Option<string>)
    ensures r == FirstEntered(inputs)
    ensures r.Some? ==> r.value != [] && IsStripped(r.value)
  {
    var i := 0;
    while i < |inputs|
      invariant 0 <= i <= |inputs|
      invariant FirstEntered(inputs[i..]) == FirstEntered(inputs)
    {
      var line := Strip(inputs[i]);
      if line != [] {
        return Some(line);
      }
      assert inputs[i..][1..] == inputs[i + 1..];
      i := i + 1;
    }
    r := None;
  }

  /** The domain text a request works from: the cached file, else what the fetch yields. */
  function DomainsSource(files: map<string, string>, outcome: FetchOutcome): (r: Result<string, Failure>) {
    if DomainsFile in files then Success(files[DomainsFile]) else FetchOrDefault(outcome, "")
  }

  /** The files once the domain list is settled: the normalised list written back as lines. */
  function DomainsFiles(files: map<string, string>, outcome: FetchOutcome): (after: map<string, string>) {
    match DomainsSource(files, outcome)
    case Failure(_) => files
    case Success(domainsText) => files[DomainsFile := Join(Normalize(domainsText), "\n")]
  }

  lemma Overwrite(m: map<string, string>, k: string, a: string, b: string)
    ensures m[k := a][k := b] == m[k := b]
  {
  }

  /** The proxy text a request works from: the cached file, else the first proxy entered. */
  function ProxiesSource(files: map<string, string>, inputs: seq<string>): (r: Option<string>) {
    if ProxiesFile in files then Some(files[ProxiesFile]) else FirstEntered(inputs)
  }

  /** The files once the proxy text is settled: an entered proxy is saved. */
  function ProxiesFiles(files: map<string, string>, inputs: seq<string>): (after: map<string, string>) {
    if ProxiesFile in files then files
    else match FirstEntered(inputs)
      case None => files
      case Some(proxy) => files[ProxiesFile := proxy]
  }

  /** The script for a domain text and a proxy text: normalise, compile, parse and fill the template. */
  function PacScript(domainsText: string, proxiesText: string): (script: string) {
    Render(CompileRules(Normalize(domainsText)), Defines(ParseProxies(proxiesText)))
  }

  /** The domain text and the proxy text one request works from, or why it has none. */
  function Sources(files: map<string, string>, outcome: FetchOutcome, inputs: seq<string>): (r: Result<(string, string), Failure>) {
    match DomainsSource(files, outcome)
    case Failure(e) => Failure(e)
    case Success(domainsText) =>
      match ProxiesSource(files, inputs)
      case None => Failure(InputClosed)
      case Some(proxiesText) => Success((domainsText, proxiesText))
  }

  /** The answer to one request: the script built from its two texts. */
  function MerageResult(files: map<string, string>, outcome: FetchOutcome, inputs: seq<string>): (r: Result<string, Failure>) {
    match Sources(files, outcome, inputs)
    case Failure(e) => Failure(e)
    case Success(texts) => Success(PacScript(texts.0, texts.1))
  }

  /** The files after one request: the domain list rewritten normalised, then an entered proxy saved. */
  function MerageFiles(files: map<string, string>, outcome: FetchOutcome, inputs: seq<string>): (after: map<string, string>) {
    if DomainsSource(files, outcome).Failure? then files
    else ProxiesFiles(DomainsFiles(files, outcome), inputs)
  }

  /** Rewriting the domain list leaves the proxy file, and so the proxy text, as it was. */
  lemma DomainsFilesKeepProxies(files: map<string, string>, outcome: FetchOutcome, inputs: seq<string>)
    ensures ProxiesSource(DomainsFiles(files, outcome), inputs) == ProxiesSource(files, inputs)
  {
    FileNamesDiffer();
  }

  /**
   * When no domain entry holds a `*` (so none can hold the defines marker), the script is the
   * template with the compiled rules and the joined proxies in the two marker positions, and
   * nothing else changed. A `*` in a comment or blank line does not matter: those lines are dropped.
   */
  lemma PacScriptShape(domainsText: string, proxiesText: string)
    requires forall d :: d in Normalize(domainsText) ==> '*' !in d
    ensures PacScript(domainsText, proxiesText) ==
      Prefix + CompileRules(Normalize(domainsText)) + Middle + Defines(ParseProxies(proxiesText)) + Tail
  {
    var ds := Normalize(domainsText);
    RulesWithoutStar(ds);
    RulesMarkerFacts();
    DefinesMarkerFacts();
    AbsentByChar(CompileRules(ds), DefinesMarker, 1);
    RenderShape(CompileRules(ds), Defines(ParseProxies(proxiesText)));
  }

  /** A domain text with no entry (empty, blank or all comments) leaves the `+Auto` profile with no rules. */
  lemma ScriptWithoutDomains(domainsText: string, proxiesText: string)
    requires Normalize(domainsText) == []
    ensures PacScript(domainsText, proxiesText) ==
      Head + AutoWithoutRules + PacHostOpen + Defines(ParseProxies(proxiesText)) + Tail
  {
    RenderWithoutRules(CompileRules([]), Defines(ParseProxies(proxiesText)));
  }

  /** The script depends on the domain text only through its normalised list. */
  lemma PacScriptNormalized(domainsText: string, proxiesText: string)
    ensures PacScript(Join(Normalize(domainsText), "\n"), proxiesText) == PacScript(domainsText, proxiesText)
  {
    NormalizeIdempotent(domainsText);
  }

  /**
   * After a request that found both texts, both files are cached: a later request, whatever the
   * network and the console would give, works from the normalised domain list and the same proxy
   * text, and leaves the files as they are.
   */
  lemma RepeatSources(files: map<string, string>, outcome: FetchOutcome, inputs: seq<string>,
                      outcome2: FetchOutcome, inputs2: seq<string>)
    requires Sources(files, outcome, inputs).Success?
    ensures var after := MerageFiles(files, outcome, inputs);
      var texts := Sources(files, outcome, inputs).value;
      DomainsFile in after && ProxiesFile in after &&
      Sources(after, outcome2, inputs2) == Success((Join(Normalize(texts.0), "\n"), texts.1)) &&
      MerageFiles(after, outcome2, inputs2) == after
  {
    var domainsText := DomainsSource(files, outcome).value;
    CachedAfter(files, outcome, inputs);
    NormalizeIdempotent(domainsText);
    SettledStore(MerageFiles(files, outcome, inputs), outcome2, inputs2);
  }

  /**
   * A store holding both files, with `domains.txt` already normalised, is read as it is and left as
   * it is by a request, whatever the network and the console would give.
   */
  lemma SettledStore(files: map<string, string>, outcome: FetchOutcome, inputs: seq<string>)
    requires DomainsFile in files && ProxiesFile in files
    requires files[DomainsFile] == Join(Normalize(files[DomainsFile]), "\n")
    ensures Sources(files, outcome, inputs) == Success((files[DomainsFile], files[ProxiesFile]))
    ensures MerageFiles(files, outcome, inputs) == files
  {
    assert files[DomainsFile := files[DomainsFile]] == files;
  }

  /**
   * A request that succeeds leaves both files cached: any later request, whatever the network
   * and the console would give, fetches and prompts nothing, answers the same script and leaves
   * the files as they are.
   */
  lemma RepeatRequest(files: map<string, string>, outcome: FetchOutcome, inputs: seq<string>,
                      outcome2: FetchOutcome, inputs2: seq<string>)
    requires MerageResult(files, outcome, inputs).Success?
    ensures var after := MerageFiles(files, outcome, inputs);
      DomainsFile in after && ProxiesFile in after &&
      MerageResult(after, outcome2, inputs2) == MerageResult(files, outcome, inputs) &&
      MerageFiles(after, outcome2, inputs2) == after
  {
    RepeatSources(files, outcome, inputs, outcome2, inputs2);
    var texts := Sources(files, outcome, inputs).value;
    PacScriptNormalized(texts.0, texts.1);
  }

  /** After a request that found both texts, the two files hold the normalised domain list and the proxy text. */
  lemma CachedAfter(files: map<string, string>, outcome: FetchOutcome, inputs: seq<string>)
    requires Sources(files, outcome, inputs).Success?
    ensures var after := MerageFiles(files, outcome, inputs);
      var texts := Sources(files, outcome, inputs).value;
      DomainsFile in after && after[DomainsFile] == Join(Normalize(texts.0), "\n") &&
      ProxiesFile in after && after[ProxiesFile] == texts.1
  {
    FileNamesDiffer();
    DomainsFilesKeepProxies(files, outcome, inputs);
  }

  /**
   * An HTTP error on the fetch of an uncached domain list works from the empty domain text and
   * caches it as it is.
   */
  lemma HttpErrorSources(files: map<string, string>, inputs: seq<string>)
    requires DomainsFile !in files && ProxiesSource(files, inputs).Some?
    ensures Sources(files, HttpError, inputs) == Success(("", ProxiesSource(files, inputs).value))
    ensures DomainsFile in MerageFiles(files, HttpError, inputs) && MerageFiles(files, HttpError, inputs)[DomainsFile] == ""
  {
    FileNamesDiffer();
    DomainsFilesKeepProxies(files, HttpError, inputs);
    NormalizeEmpty();
  }

  /** The empty text has no domain entry and is cached as the empty text. */
  lemma NormalizeEmpty()
    ensures Normalize("") == [] && Join(Normalize(""), "\n") == ""
  {
    assert Split("", '\n') == [""];
    if Normalize("") != [] {
      NormalizeMembers("");
      assert false;
    }
  }

  /**
   * An HTTP error on the fetch of an uncached domain list caches an empty list and serves a script
   * whose `+Auto` profile has no rules, so every host goes `DIRECT`.
   */
  lemma HttpErrorScript(files: map<string, string>, inputs: seq<string>)
    requires DomainsFile !in files && ProxiesSource(files, inputs).Some?
    ensures MerageResult(files, HttpError, inputs) ==
      Success(Head + AutoWithoutRules + PacHostOpen + Defines(ParseProxies(ProxiesSource(files, inputs).value)) + Tail)
    ensures DomainsFile in MerageFiles(files, HttpError, inputs) && MerageFiles(files, HttpError, inputs)[DomainsFile] == ""
  {
    HttpErrorSources(files, inputs);
    NormalizeEmpty();
    ScriptWithoutDomains("", ProxiesSource(files, inputs).value);
  }

  /** Any other fetch failure answers no script and leaves the files and the cache untouched. */
  lemma OtherFailureFails(files: map<string, string>, inputs: seq<string>)
    requires DomainsFile !in files
    ensures MerageResult(files, OtherFailure, inputs) == Failure(FetchFailed)
    ensures MerageFiles(files, OtherFailure, inputs) == files
  {
  }

  /** The directory holding the two cache files, and the URLs fetched so far. */
  class Host {
    var files: map<string, string>
    var fetched: seq<string>

    constructor (initial: map<string, string>)
      ensures files == initial && fetched == []
    {
      files := initial;
      fetched := [];
    }

    /**
     * `read_else_fetch`: a cached file is returned as it is, with no fetch and no write. On a miss
     * the URL is fetched; its body, or `failDefault` on an HTTP error, is written and returned. Any
     * other fetch failure leaves the files alone and fails the call.
     */
    method ReadElseFetch(readName: string, url: string, writeName: string, outcome: FetchOutcome, failDefault: string)
      returns (r: Result<string, Failure>)
      modifies this
      ensures readName in old(files) ==> r == Success(old(files)[readName]) && files == old(files) && fetched == old(fetched)
      ensures readName !in old(files) ==> r == FetchOrDefault(outcome, failDefault) && fetched == old(fetched) + [url]
      ensures readName !in old(files) && r.Success? ==> files == old(files)[writeName := r.value]
      ensures readName !in old(files) && r.Failure? ==> files == old(files)
    {
      if readName in files {
        return Success(files[readName]);
      }
      fetched := fetched + [url];
      r := FetchOrDefault(outcome, failDefault);
      if r.Success? {
        files := files[writeName := r.value];
      }
    }

    /**
     * `read_else_write`: the file's content when it exists and reading is wanted; otherwise
     * `default` is written to it and returned.
     */
    method ReadElseWrite(name: string, default: string, onlyWrite: bool) returns (content: string)
      modifies this`files
      ensures !onlyWrite && name in old(files) ==> content == old(files)[name] && files == old(files)
      ensures onlyWrite || name !in old(files) ==> content == default && files == old(files)[name := default]
      ensures name in files && files[name] == content
    {
      if !onlyWrite && name in files {
        content := files[name];
      } else {
        files := files[name := default];
        content := default;
      }
    }

    /**
     * The first block of `merage`: the domain text read from the cache or fetched, then the
     * normalised list written back.
     */
    method SettleDomains(outcome: FetchOutcome) returns (r: Result<string, Failure>)
      modifies this
      ensures r == DomainsSource(old(files), outcome)
      ensures files == DomainsFiles(old(files), outcome)
      ensures fetched == old(fetched) + (if DomainsFile in old(files) then [] else [DomainsUrl])
    {
      r := ReadElseFetch(DomainsFile, DomainsUrl, DomainsFile, outcome, "");
      if r.Success? {
        var cache := Join(Normalize(r.value), "\n");
        Overwrite(old(files), DomainsFile, r.value, cache);
        files := files[DomainsFile := cache];
      }
    }

    /**
     * The second block of `merage`: the proxy text read from the cache, or else prompted for and
     * saved.
     */
    method SettleProxies(inputs: seq<string>) returns (r: Option<string>)
      modifies this`files
      ensures r == ProxiesSource(old(files), inputs)
      ensures files == ProxiesFiles(old(files), inputs)
    {
      if ProxiesFile in files {
        return Some(files[ProxiesFile]);
      }
      r := PromptProxy(inputs);
      if r.Some? {
        files := files[ProxiesFile := r.value];
      }
    }

    /**
     * The two blocks of `merage` that settle its inputs: the domain text (its normalised list
     * written back) and then the proxy text (saved when it was entered).
     */
    method SettleSources(outcome: FetchOutcome, inputs: seq<string>) returns (r: Result<(string, string), Failure>)
      modifies this
      ensures r == Sources(old(files), outcome, inputs)
      ensures files == MerageFiles(old(files), outcome, inputs)
      ensures fetched == old(fetched) + (if DomainsFile in old(files) then [] else [DomainsUrl])
    {
      DomainsFilesKeepProxies(files, outcome, inputs);
      var domainsText := SettleDomains(outcome);
      if domainsText.Failure? {
        return Failure(domainsText.error);
      }
      var proxiesText := SettleProxies(inputs);
      if proxiesText.None? {
        return Failure(InputClosed);
      }
      r := Success((domainsText.value, proxiesText.value));
    }

    /**
     * `merage`: the PAC script for one request. The domain list comes from the cache or the fetch,
     * is written back normalised, the proxy text comes from the cache or the prompt (and is then
     * saved), and the template is filled with the compiled rules and the joined proxies.
     */
    method Merage(outcome: FetchOutcome, inputs: seq<string>) returns (r: Result<string, Failure>)
      modifies this
      ensures r == MerageResult(old(files), outcome, inputs)
      ensures files == MerageFiles(old(files), outcome, inputs)
      ensures fetched == old(fetched) + (if DomainsFile in old(files) then [] else [DomainsUrl])
    {
      var texts := SettleSources(outcome, inputs);
      if texts.Failure? {
        return Failure(texts.error);
      }
      r := Success(PacScript(texts.value.0, texts.value.1));
    }
  }
}
