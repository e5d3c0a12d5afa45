# slidetwitty polyfill loader and scroller, modelled in Dafny

`dist/app.js` bundles two pieces with logic in them:

* **`applyPolyfills`**, the polyfill loader. It walks an ordered registry of
  `[detector, filename]` pairs and runs each detector through `isSupported`
  (a function is called, any other value is used as it is). It keeps the entries
  the host lacks and turns each of them into the URL `prefix + filename`. Then it
  appends one `<script>` per URL to the document. Its doc comment promises a
  promise that settles when all files are loaded; the code returns a
  `Promise.all` over `undefined` values instead (see Findings).
* **`Scroller`**, a class whose constructor fills in settings defaults and whose
  `start`/`stop`/`toggle` methods switch an interval timer on and off through
  the `_int_handler` field.

Modules:

* `Wrappers` (`wrappers.dfy`): `Option`, where `None` is an argument or field
  that is `undefined`.
* `Polyfills` (`polyfills.dfy`): the host as far as the default detectors
  probe it (`Host`), detectors (`Const(bool)` or `Check(Host -> bool)`),
  registry entries, `IsSupported` and `DefaultPolyfills`. It also holds the
  `filter`/`map`/`map` pipeline, written as `Unsupported`, `FileNames`,
  `Prefixed` and their composition `FilesToLoad`, and lemmas on what that
  pipeline selects and in what order.
* `Promises` (`promises.dfy`): `Promise.all` (`All`) over the values a `map`
  callback returns. A value is a promise of one load outcome or `undefined`,
  and `undefined` counts as already fulfilled.
* `Loader` (`loader.dfy`): the whole call as a `Batch`, meaning the scripts
  injected and how the returned promise settles. `ApplyPolyfills` is the
  behaviour the doc comment promises, with the prefix fallback going to the
  document location. `ApplyPolyfillsAsWritten` is the code as it stands: it
  throws (`None`) on a falsy prefix, and otherwise hands `Promise.all` only
  `undefined` values (see Findings). The host's verdict on each URL is the parameter
  `load: string -> Outcome`.
* `Scrolling` (`scrolling.dfy`): the constructor defaults (`Configure`), the
  `Scroller` class and a small `Timers` class. `Timers` stands for the host's
  `setInterval`/`clearInterval`: it hands out fresh ids and keeps the live
  intervals with their periods.

Points where the code behaves differently from what its names and comments
suggest:
* The default registry lists html-import before custom-elements.
* The call site always passes `true` for `in_order`, so ordering has no effect.
* The returned promise does not wait for the loads, and a falsy prefix makes
  the call throw. Both are modelled as written in `ApplyPolyfillsAsWritten`
  and as intended in `ApplyPolyfills` (see Findings).

## Model

| member | source | states |
|---|---|---|
| `Polyfills.IsSupported` | dist/app.js:54-56 | no contract of its own: a constant detector is its own answer and a function detector is applied to the host at call time; its properties are carried by `OrderWitness`, `SameVerdictsSameRequests` and `SupportedSkipped` |
| `Polyfills.FilesToLoad` | dist/app.js:74-76 | never more URLs than registry entries, and every URL begins with the prefix; exactness and order are in `OrderWitness`, `RequestedIff` and `FilesToLoadAppend` |
| `Polyfills.Unsupported` | dist/app.js:74 | the filter keeps no more entries than the registry has, and every entry it keeps has a detector that evaluates to false |
| `Polyfills.FilesToLoadAppend` | dist/app.js:74-76 | selecting from `a + b` gives the URLs selected from `a` followed by those from `b`, so registry order is preserved |
| `Polyfills.OrderWitness` | dist/app.js:54-76 | the k-th URL is `prefix + file` of the entry at position idx[k] of a strictly increasing list of positions, and a position is on that list iff its detector (constant or function) evaluates to false |
| `Polyfills.RequestedIff` | dist/app.js:74-76 | both directions: a URL is requested iff some entry whose detector is false has `prefix + file` equal to it |
| `Polyfills.NothingRequestedIff` | dist/app.js:74 | both directions: the URL list is empty iff every detector evaluates to true |
| `Polyfills.NoneSupportedRequestsAll` | dist/app.js:74-76 | when every detector is false, every file is requested under the prefix, in registry order |
| `Polyfills.SameVerdictsSameRequests` | dist/app.js:54-56 | detectors are evaluated at call time: two hosts on which every detector gives the same answer get the same URL list |
| `Polyfills.SupportedSkipped` | dist/app.js:54-74 | an entry whose detector evaluates to true on the host, whether a constant or a function, adds nothing to the URL list at any position of the registry |
| `Polyfills.SelectionExample` | dist/app.js:74-76 | `[(false,"a.js"),(true,"b.js"),(false,"c.js")]` under "/p/" gives `["/p/a.js","/p/c.js"]` |
| `Polyfills.NoSeparatorInserted` | dist/app.js:76 | prefix and file are concatenated with no separator inserted |
| `Polyfills.DefaultRegistry` | dist/app.js:31-34 | the default registry has these seven file names in this order: fetch, promise, intersection observer, mutation observer, web animations, html import, custom elements |
| `Polyfills.DefaultDetectors` | dist/app.js:18-29 | the capability each default detector probes: five `window` globals, `animate` on a div and `import` on a link |
| `Polyfills.DefaultOnBareHost` | dist/app.js:18-34 | a host with none of the capabilities is asked for all seven default files, in order |
| `Promises.All` | dist/app.js:84 | `Promise.all` is fulfilled iff none of its values is a rejecting promise |
| `Promises.AllRejectsWithFirst` | dist/app.js:84 | both directions: `Promise.all` rejects with x iff the first rejecting value, in list order, carries x |
| `Promises.AllStatusOrderIndependent` | dist/app.js:84 | whether the aggregate is fulfilled does not depend on the order of its values |
| `Promises.AllOfNonPromises` | dist/app.js:84 | a list of `undefined` values is fulfilled at once |
| `Loader.ResolveSource` | dist/app.js:67 | no contract of its own: an undefined `source` becomes the default registry; carried by `DefaultsOnBareHost` |
| `Loader.ResolvePrefix` | dist/app.js:72 | a non-empty prefix is used verbatim; an undefined or empty prefix becomes the host location |
| `Loader.ResolvePrefixAsWritten` | dist/app.js:72 | the written line yields a prefix iff the argument is a non-empty string, and then yields it verbatim; every falsy prefix throws |
| `Loader.LoadScript` | dist/app.js:44-52 | no contract of its own: one `<script>` with the given `src`, asynchronous iff not loading in order; carried by `OneScriptPerUrl` and `InOrderIgnored` |
| `Loader.Inject` | dist/app.js:78-80 | one script per URL in the same order, each with `src` equal to its URL and none asynchronous, since line 80 passes `true` |
| `Loader.ApplyPolyfills` | dist/app.js:65-85 | the documented call: as many scripts as requested URLs, never more than registry entries, and the promise resolves iff every requested URL loads; also `BatchRejectsWithFirstFailure`, `EmptyBatch` |
| `Loader.ApplyPolyfillsAsWritten` | dist/app.js:67-84 | the written call throws iff the prefix is falsy; otherwise it injects at most one script per registry entry and its promise resolves; also `AsWrittenMissesFailure`, `AsWrittenInjectsTheSame` |
| `Loader.AsWrittenFallbackThrows` | dist/app.js:72 | as written, the fallback branch throws instead of yielding a prefix, while the intended fallback yields the location |
| `Loader.AsWrittenPrefixAgrees` | dist/app.js:72 | where the written line does not throw, it agrees with the intended prefix |
| `Loader.OneScriptPerUrl` | dist/app.js:44-52 | exactly one script per requested URL, in request order, with src equal to the URL and not asynchronous; never more URLs than registry entries |
| `Loader.InOrderIgnored` | dist/app.js:80 | the `in_order` argument does not change the batch |
| `Loader.BatchResolvesIff` | dist/app.js:65 | both directions: the documented promise resolves iff every requested URL loads |
| `Loader.BatchRejectsWithFirstFailure` | dist/app.js:65 | both directions: the documented promise rejects with x iff the first failing URL, in request order, failed with x |
| `Loader.EmptyBatch` | dist/app.js:74-84 | when every detector is true, no script is injected and the promise resolves |
| `Loader.UrlsUseResolvedPrefix` | dist/app.js:72-76 | every requested URL begins with the resolved prefix and continues with the file name of some registry entry |
| `Loader.AsWrittenAlwaysResolves` | dist/app.js:72-84 | as written, a call throws iff the prefix is falsy, and every other call returns a promise that resolves whatever the loads do |
| `Loader.AsWrittenInjectsTheSame` | dist/app.js:72-82 | where the written code does not throw, the missing `return` does not change which scripts are injected |
| `Loader.AsWrittenMissesFailure` | dist/app.js:78-84 | one unsupported polyfill whose load fails: the documented promise rejects with the reason, while the written code injects its one script and resolves |
| `Loader.DefaultsOnBareHost` | dist/app.js:67-72 | with no arguments, a bare host is asked for all seven default files under its location |
| `Scrolling.Configure` | dist/app.js:116-130 | a truthy page size, duration or interval is kept and a missing or zero one becomes `clientHeight`, 785 or 3; the direction is 'Top' iff it is 'vertical', otherwise 'Left'; duration and interval are never zero |
| `Scrolling.ConfigureWithoutSettings` | dist/app.js:116-120 | with no settings argument the default object applies: 785 ms, 12.5 s interval, 'Top' |
| `Scrolling.ConfigurePartialSettings` | dist/app.js:125-130 | a settings object with only page size and interval (the shape `setup` passes) gets 785 ms and 'Left', and a falsy interval becomes 3 s, not the default object's values |
| `Scrolling.Timers.SetInterval` | dist/app.js:155 | stands for `setInterval`: returns an id not in use before and adds it as a live interval with the given period |
| `Scrolling.Timers.ClearInterval` | dist/app.js:160 | stands for `clearInterval`: removes the given id from the live intervals and ignores an undefined one |
| `Scrolling.Scroller.constructor` | dist/app.js:115-131 | fields are those `Configure` computes and the scroller is not running |
| `Scrolling.Scroller.Start` | dist/app.js:153-156 | a fresh interval with period `interval * 1000` ms is registered and its handle stored; any earlier interval stays live |
| `Scrolling.Scroller.Stop` | dist/app.js:158-162 | the stored interval, if any, is cleared and the handle becomes undefined |
| `Scrolling.Scroller.Toggle` | dist/app.js:164-171 | stops when a handle is present, starts otherwise; the running status flips |
| `Scrolling.ToggleTwice` | dist/app.js:164-171 | two toggles restore the running status; a stopped scroller ends with the same live intervals |
| `Scrolling.StartTwiceLeaks` | dist/app.js:153-156 | two `start` calls leave a live interval whose handle is no longer stored |

## Left out

- `loadScript`'s DOM work (dist/app.js:44-52): it is host I/O. It appears only as the `Script` record it appends and the outcome `load` reports for its URL.
- The asynchronous timing of loads, `onload`/`onerror` events and the event loop: this is concurrency. An outcome per URL stands for the eventual settling.
- `Promises.AllRejectsWithFirst`: "first" means first in list order. `Promise.all` reports the failure that settles first in time, which the model does not see. `Promises.AllStatusOrderIndependent` shows that only the reported reason depends on this.
- `Loader.BatchRejectsWithFirstFailure`: "first" means first in request order, for the same reason.
- The default `prefix = document.currentScript` (dist/app.js:68): it is a DOM element, not a string, and is host specific. An undefined prefix goes straight to the fallback.
- `load: string -> Outcome` gives one outcome per URL, so two scripts with the same `src` (a registry naming one file twice) settle alike.
- The fallback location is a field of `Host`, not a real `document.location` lookup.
- Detector exceptions and JavaScript truthiness of non-boolean detector results: detectors return `bool`. Falsy numbers are `undefined` or zero; NaN is not modelled.
- zenscroll and the `scroll`, `cycle` and `update` methods (dist/app.js:136-151), including the initial `scroll(0)` and the floating-point `pct`: these are foreign library calls and floating point.
- Real timers: `Timers` only hands out ids and records live intervals; nothing fires.
- The UMD wrapper, the Babel helpers `classCallCheck`/`createClass`, the bootstrap call, `setup` and the event handlers (dist/app.js:1-5, 87-112, 176-211): these are transpiler boilerplate and UI glue.

## Findings

| source | as written | input that shows it | evidently intended | confidence | as-written member | corrected member |
|---|---|---|---|---|---|---|
| dist/app.js:78-84 | the `map` callback has a block body and no `return`, so `Promise.all` gets only `undefined` and resolves at once | one unsupported entry whose script fails with "404" (`Loader.AsWrittenMissesFailure`) | the promise resolves when every file has loaded and rejects otherwise, as the doc comment at line 65 says | not executed | `Loader.ApplyPolyfillsAsWritten` | `Loader.ApplyPolyfills` |
| dist/app.js:72 | the fallback calls `document.location.href()`, and `href` is a string, so a falsy prefix throws a TypeError | `prefix` "" or `null` (`Loader.AsWrittenFallbackThrows`); an undefined argument takes the `document.currentScript` default first, so it throws only when that is null | fall back to the document location `document.location.href` | not executed | `Loader.ResolvePrefixAsWritten` | `Loader.ResolvePrefix` |
