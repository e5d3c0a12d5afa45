/**
 * `applyPolyfills` as one batch (dist/app.js:67-85): resolve the defaults,
 * select the URLs, inject one script per URL and settle the aggregate
 * promise. The host's eventual verdict on each URL is the parameter `load`.
 */
module Loader {
  import opened Wrappers
  import opened Polyfills
  import opened Promises

  /** A `<script>` element appended to `document.head`. */
  datatype Script = Script(src: string, async: bool)

  /** What one call leaves behind: the injected scripts, in order, and how its promise settles. */
  datatype Batch = Batch(scripts: seq<Script>, settled: Settlement)

  /** The `source` parameter: `DEFAULT_POLYFILLS` when the argument is undefined. */
  function ResolveSource(source: Option<seq<Entry>>): seq<Entry>
  {
    match source
    case None => DefaultPolyfills
    case Some(s) => s
  }

  /** `!!prefix ? prefix : <document location>`: an undefined or empty prefix falls back to the host location. */
  function ResolvePrefix(prefix: Option<string>, h: Host): (r: string)
    ensures prefix.Some? && prefix.value != "" ==> r == prefix.value
    ensures prefix.None? || prefix.value == "" ==> r == h.location
  {
    match prefix
    case Some(p) => if p != "" then p else h.location
    case None => h.location
  }

  /**
   * The prefix line as written: the fallback is `document.location.href()`,
   * a call of a string, which throws. `None` stands for that TypeError.
   */
  function ResolvePrefixAsWritten(prefix: Option<string>, h: Host): (r: Option<string>)
    ensures r.Some? <==> prefix.Some? && prefix.value != ""
    ensures r.Some? ==> r.value == prefix.value
  {
    match prefix
    case Some(p) => if p != "" then Some(p) else None
    case None => None
  }

  /** The fallback branch never yields a prefix as written, while the intended one yields the location. */
  lemma AsWrittenFallbackThrows(prefix: Option<string>, h: Host)
    requires prefix.None? || prefix.value == ""
    ensures ResolvePrefixAsWritten(prefix, h) == None
    ensures ResolvePrefix(prefix, h) == h.location
  {
  }

  /** Where the written fallback does not throw, it agrees with the intended one. */
  lemma AsWrittenPrefixAgrees(prefix: Option<string>, h: Host)
    ensures ResolvePrefixAsWritten(prefix, h).Some? ==> ResolvePrefixAsWritten(prefix, h).value == ResolvePrefix(prefix, h)
  {
  }

  /** `loadScript(src, in_order, ...)`: the script is asynchronous unless loading in order. */
  function LoadScript(src: string, inOrder: bool): Script
  {
    Script(src, !inOrder)
  }

  /** The scripts injected for `urls`: the call site always passes `true` for `in_order`. */
  function Inject(urls: seq<string>): (r: seq<Script>)
    ensures |r| == |urls|
    ensures forall k :: 0 <= k < |r| ==> r[k].src == urls[k] && !r[k].async
  {
    seq(|urls|, k requires 0 <= k < |urls| => LoadScript(urls[k], true))
  }

  /** The documented behaviour: the callback returns the promise of its load. */
  function Promised(urls: seq<string>, load: string -> Outcome): seq<Value>
  {
    seq(|urls|, k requires 0 <= k < |urls| => Promise(load(urls[k])))
  }

  /** The callback as written: a block body with no `return`, so it yields `undefined`. */
  function Discarded(urls: seq<string>): seq<Value>
  {
    seq(|urls|, k requires 0 <= k < |urls| => Undefined)
  }

  function Requested(source: Option<seq<Entry>>, prefix: Option<string>, h: Host): seq<string>
  {
    FilesToLoad(ResolveSource(source), ResolvePrefix(prefix, h), h)
  }

  /** `applyPolyfills` with the promise it documents: settled once every load has settled. */
  function ApplyPolyfills(source: Option<seq<Entry>>, prefix: Option<string>, inOrder: bool,
                          h: Host, load: string -> Outcome): (b: Batch)
    ensures |b.scripts| == |Requested(source, prefix, h)| <= |ResolveSource(source)|
    ensures b.settled == Resolved <==>
      forall k :: 0 <= k < |Requested(source, prefix, h)| ==> load(Requested(source, prefix, h)[k]) == Loaded
  {
    var urls := Requested(source, prefix, h);
    var vs := Promised(urls, load);
    assert forall k :: 0 <= k < |urls| ==> (Rejects(vs[k]) <==> load(urls[k]) != Loaded);
    Batch(Inject(urls), All(vs))
  }

  /**
   * `applyPolyfills` as written: a falsy prefix throws at the fallback line
   * (`None`, nothing injected and no promise returned); otherwise
   * `Promise.all` receives only `undefined` values.
   */
  function ApplyPolyfillsAsWritten(source: Option<seq<Entry>>, prefix: Option<string>, inOrder: bool,
                                   h: Host, load: string -> Outcome): (r: Option<Batch>)
    ensures r.None? <==> prefix.None? || prefix.value == ""
    ensures r.Some? ==> |r.value.scripts| <= |ResolveSource(source)| && r.value.settled == Resolved
  {
    match ResolvePrefixAsWritten(prefix, h)
    case None => None
    case Some(p) =>
      var urls := FilesToLoad(ResolveSource(source), p, h);
      Some(Batch(Inject(urls), All(Discarded(urls))))
  }

  /**
   * Exactly one script per requested URL, in request order, none of them
   * asynchronous, whatever `in_order` was passed.
   */
  lemma OneScriptPerUrl(source: Option<seq<Entry>>, prefix: Option<string>, inOrder: bool,
                        h: Host, load: string -> Outcome)
    ensures var b := ApplyPolyfills(source, prefix, inOrder, h, load);
      var urls := Requested(source, prefix, h);
      |b.scripts| == |urls| <= |ResolveSource(source)| &&
      forall k :: 0 <= k < |urls| ==> b.scripts[k].src == urls[k] && !b.scripts[k].async
  {
  }

  /** `in_order` has no effect on the batch. */
  lemma InOrderIgnored(source: Option<seq<Entry>>, prefix: Option<string>, h: Host, load: string -> Outcome)
    ensures ApplyPolyfills(source, prefix, false, h, load) == ApplyPolyfills(source, prefix, true, h, load)
  {
  }

  /** The batch resolves exactly when every requested URL loads. */
  lemma BatchResolvesIff(source: Option<seq<Entry>>, prefix: Option<string>, inOrder: bool,
                         h: Host, load: string -> Outcome)
    ensures ApplyPolyfills(source, prefix, inOrder, h, load).settled == Resolved <==>
      forall url :: url in Requested(source, prefix, h) ==> load(url) == Loaded
  {
    var urls := Requested(source, prefix, h);
    var vs := Promised(urls, load);
    if All(vs) == Resolved {
      forall url | url in urls ensures load(url) == Loaded {
        var k :| 0 <= k < |urls| && urls[k] == url;
        assert !Rejects(vs[k]);
      }
    }
  }

  /** Both directions: the batch rejects with `x` exactly when the first failing URL, in request order, failed with `x`. */
  lemma BatchRejectsWithFirstFailure(source: Option<seq<Entry>>, prefix: Option<string>, inOrder: bool,
                                     h: Host, load: string -> Outcome, x: Reason)
    ensures var urls := Requested(source, prefix, h);
      ApplyPolyfills(source, prefix, inOrder, h, load).settled == Rejected(x) <==>
      exists k :: 0 <= k < |urls| && load(urls[k]) == Failed(x) &&
        forall j :: 0 <= j < k ==> load(urls[j]) == Loaded
  {
    var urls := Requested(source, prefix, h);
    var vs := Promised(urls, load);
    AllRejectsWithFirst(vs, x);
    assert forall j :: 0 <= j < |urls| ==> (!Rejects(vs[j]) <==> load(urls[j]) == Loaded);
  }

  /** A registry whose every detector is true injects nothing and resolves at once. */
  lemma EmptyBatch(source: Option<seq<Entry>>, prefix: Option<string>, inOrder: bool,
                   h: Host, load: string -> Outcome)
    requires forall i :: 0 <= i < |ResolveSource(source)| ==> IsSupported(ResolveSource(source)[i].detect, h)
    ensures ApplyPolyfills(source, prefix, inOrder, h, load) == Batch([], Resolved)
  {
    NothingRequestedIff(ResolveSource(source), ResolvePrefix(prefix, h), h);
  }

  /** Each requested URL is the resolved prefix followed by a registry file name, byte for byte. */
  lemma UrlsUseResolvedPrefix(source: Option<seq<Entry>>, prefix: Option<string>, h: Host, k: nat)
    requires k < |Requested(source, prefix, h)|
    ensures var p := ResolvePrefix(prefix, h);
      var url := Requested(source, prefix, h)[k];
      |p| <= |url| && url[..|p|] == p &&
      exists i :: 0 <= i < |ResolveSource(source)| && url[|p|..] == ResolveSource(source)[i].file
  {
    var s := ResolveSource(source);
    var p := ResolvePrefix(prefix, h);
    var idx := OrderWitness(s, p, h);
    var url := Requested(source, prefix, h)[k];
    assert url == p + s[idx[k]].file;
    assert url[|p|..] == s[idx[k]].file;
  }

  /**
   * As written, a call with a falsy prefix throws, and any other call returns
   * a promise that resolves whatever the loads do.
   */
  lemma AsWrittenAlwaysResolves(source: Option<seq<Entry>>, prefix: Option<string>, inOrder: bool,
                                h: Host, load: string -> Outcome)
    ensures ApplyPolyfillsAsWritten(source, prefix, inOrder, h, load).None? <==> (prefix.None? || prefix.value == "")
    ensures ApplyPolyfillsAsWritten(source, prefix, inOrder, h, load).Some? ==>
      ApplyPolyfillsAsWritten(source, prefix, inOrder, h, load).value.settled == Resolved
  {
  }

  /** Where the written code does not throw, the missing `return` changes nothing about which scripts are injected. */
  lemma AsWrittenInjectsTheSame(source: Option<seq<Entry>>, prefix: Option<string>, inOrder: bool,
                                h: Host, load: string -> Outcome)
    ensures ApplyPolyfillsAsWritten(source, prefix, inOrder, h, load).Some? ==>
      ApplyPolyfillsAsWritten(source, prefix, inOrder, h, load).value.scripts ==
      ApplyPolyfills(source, prefix, inOrder, h, load).scripts
  {
  }

  /**
   * The input that shows the defect: one unsupported polyfill whose script
   * fails to load. The documented promise rejects; the one returned resolves.
   */
  lemma AsWrittenMissesFailure(h: Host)
    ensures var source := Some([Entry(Const(false), "fetch.js")]);
      var load := (url: string) => Failed("404");
      ApplyPolyfills(source, Some("/p/"), true, h, load).settled == Rejected("404") &&
      ApplyPolyfillsAsWritten(source, Some("/p/"), true, h, load) == Some(Batch([Script("/p/fetch.js", false)], Resolved))
  {
    var source := [Entry(Const(false), "fetch.js")];
    FilesToLoadCons(source, "/p/", h);
    assert "/p/" + "fetch.js" == "/p/fetch.js";
    assert FilesToLoad(source, "/p/", h) == ["/p/fetch.js"];
    assert Inject(["/p/fetch.js"]) == [Script("/p/fetch.js", false)];
  }

  /** With no arguments the default registry is used; on a bare host all seven files are requested under the location. */
  lemma DefaultsOnBareHost(location: string)
    ensures Requested(None, None, Host({}, {}, {}, location)) == Prefixed(location, [
      "fetch.js", "es6-promise.min.js",
      "intersection-observer.js", "mutationobserver.min.js",
      "web-animations-next-lite.min.js",
      "html-import.js", "custom-elements.min.js"])
  {
    DefaultOnBareHost(location, location);
  }
}
