/**
 * The polyfill registry and the selection half of `applyPolyfills`
 * (dist/app.js:18-34, 54-56, 74-76): keep the entries whose detector says
 * "not supported", take their file names and put the prefix in front.
 */
module Polyfills {

  /** The parts of the browser the default detectors look at. */
  datatype Host = Host(
    globals: set<string>,         // names on `window` whose value is truthy
    divProperties: set<string>,   // properties of a freshly created <div>
    linkProperties: set<string>,  // properties of a freshly created <link>
    location: string)             // the document's location, the fallback prefix

  /** A detector is a boolean already known, or a zero-argument check run against the host. */
  datatype Detector = Const(value: bool) | Check(test: Host -> bool)

  /** One registry pair `[detector, filename]`. */
  datatype Entry = Entry(detect: Detector, file: string)

  /** `isSupported`: a function is called, any other value is the answer itself. */
  function IsSupported(d: Detector, h: Host): bool
  {
    match d
    case Const(b) => b
    case Check(f) => f(h)
  }

  const FetchEntry := Entry(Check((h: Host) => "fetch" in h.globals), "fetch.js")
  const PromiseEntry := Entry(Check((h: Host) => "Promise" in h.globals), "es6-promise.min.js")
  const IntersectionObserverEntry :=
    Entry(Check((h: Host) => "IntersectionObserver" in h.globals), "intersection-observer.js")
  const MutationObserverEntry :=
    Entry(Check((h: Host) => "MutationObserver" in h.globals), "mutationobserver.min.js")
  const WebAnimationEntry :=
    Entry(Check((h: Host) => "animate" in h.divProperties), "web-animations-next-lite.min.js")
  const CustomElementsEntry := Entry(Check((h: Host) => "customElements" in h.globals), "custom-elements.min.js")
  const HtmlImportEntry := Entry(Check((h: Host) => "import" in h.linkProperties), "html-import.js")

  /** `DEFAULT_POLYFILLS`, in the order the source lists them. */
  const DefaultPolyfills: seq<Entry> := [
    FetchEntry, PromiseEntry,
    IntersectionObserverEntry, MutationObserverEntry,
    WebAnimationEntry,
    HtmlImportEntry, CustomElementsEntry
  ]

  /** The `filter` step: the entries whose detector answers false, in registry order. */
  function Unsupported(source: seq<Entry>, h: Host): (r: seq<Entry>)
    ensures |r| <= |source|
    ensures forall k :: 0 <= k < |r| ==> !IsSupported(r[k].detect, h)
    decreases |source|
  {
    if |source| == 0 then []
    else if IsSupported(source[0].detect, h) then Unsupported(source[1..], h)
    else [source[0]] + Unsupported(source[1..], h)
  }

  /** The first `map` step: `poly[1]`. */
  function FileNames(entries: seq<Entry>): seq<string>
  {
    seq(|entries|, k requires 0 <= k < |entries| => entries[k].file)
  }

  /** The second `map` step: `prefix + file`, a plain concatenation. */
  function Prefixed(prefix: string, files: seq<string>): seq<string>
  {
    seq(|files|, k requires 0 <= k < |files| => prefix + files[k])
  }

  /** `filesToLoad`: the URLs `applyPolyfills` asks the host to load. */
  function FilesToLoad(source: seq<Entry>, prefix: string, h: Host): (r: seq<string>)
    ensures |r| <= |source|
    ensures forall k :: 0 <= k < |r| ==> |prefix| <= |r[k]| && r[k][..|prefix|] == prefix
  {
    Prefixed(prefix, FileNames(Unsupported(source, h)))
  }

  /** The two `map` steps distribute over concatenation of entry lists. */
  lemma MapsDistribute(prefix: string, a: seq<Entry>, b: seq<Entry>)
    ensures Prefixed(prefix, FileNames(a + b)) == Prefixed(prefix, FileNames(a)) + Prefixed(prefix, FileNames(b))
  {
  }

  /** Unfolding the pipeline one registry entry at a time. */
  lemma FilesToLoadCons(source: seq<Entry>, prefix: string, h: Host)
    requires |source| > 0
    ensures FilesToLoad(source, prefix, h) ==
      (if IsSupported(source[0].detect, h) then [] else [prefix + source[0].file])
        + FilesToLoad(source[1..], prefix, h)
  {
    if !IsSupported(source[0].detect, h) {
      MapsDistribute(prefix, [source[0]], Unsupported(source[1..], h));
    }
  }

  /**
   * Selection is a homomorphism over the registry: splitting the registry in
   * two and selecting from each part gives the same URLs in the same order.
   */
  lemma {:induction false} FilesToLoadAppend(a: seq<Entry>, b: seq<Entry>, prefix: string, h: Host)
    ensures FilesToLoad(a + b, prefix, h) == FilesToLoad(a, prefix, h) + FilesToLoad(b, prefix, h)
    decreases |a|
  {
    if |a| == 0 {
      assert a + b == b;
    } else {
      assert (a + b)[1..] == a[1..] + b;
      FilesToLoadCons(a + b, prefix, h);
      FilesToLoadCons(a, prefix, h);
      FilesToLoadAppend(a[1..], b, prefix, h);
    }
  }

  /** Every position moved one place to the right. */
  function Shift(idx: seq<nat>): seq<nat>
  {
    seq(|idx|, k requires 0 <= k < |idx| => idx[k] + 1)
  }

  lemma ShiftMembership(idx: seq<nat>, i: nat)
    ensures i + 1 in Shift(idx) <==> i in idx
    ensures 0 !in Shift(idx)
  {
    var r := Shift(idx);
    if i + 1 in r {
      var k :| 0 <= k < |r| && r[k] == i + 1;
      assert idx[k] == i;
    }
    if i in idx {
      var k :| 0 <= k < |idx| && idx[k] == i;
      assert r[k] == i + 1;
    }
  }

  /** The registry positions whose detector evaluates to false, in increasing order. */
  ghost function MissingPositions(source: seq<Entry>, h: Host): seq<nat>
    decreases |source|
  {
    if |source| == 0 then []
    else (if IsSupported(source[0].detect, h) then [] else [0]) + Shift(MissingPositions(source[1..], h))
  }

  lemma {:induction false} MissingPositionsSelect(source: seq<Entry>, h: Host)
    ensures |MissingPositions(source, h)| == |Unsupported(source, h)|
    ensures forall k :: 0 <= k < |MissingPositions(source, h)| ==>
      MissingPositions(source, h)[k] < |source| &&
      Unsupported(source, h)[k].file == source[MissingPositions(source, h)[k]].file
    decreases |source|
  {
    if |source| > 0 {
      MissingPositionsSelect(source[1..], h);
      var rest := MissingPositions(source[1..], h);
      var ps := MissingPositions(source, h);
      var us := Unsupported(source, h);
      var n := if IsSupported(source[0].detect, h) then 0 else 1;
      forall k | n <= k < |ps|
        ensures ps[k] < |source| && us[k].file == source[ps[k]].file
      {
        assert ps[k] == rest[k - n] + 1;
        assert us[k] == Unsupported(source[1..], h)[k - n];
      }
    }
  }

  lemma {:induction false} MissingPositionsIncreasing(source: seq<Entry>, h: Host)
    ensures forall k :: 0 <= k < |MissingPositions(source, h)| ==> MissingPositions(source, h)[k] < |source|
    ensures forall j, k :: 0 <= j < k < |MissingPositions(source, h)| ==>
      MissingPositions(source, h)[j] < MissingPositions(source, h)[k]
    decreases |source|
  {
    if |source| > 0 {
      MissingPositionsIncreasing(source[1..], h);
    }
  }

  lemma {:induction false} MissingPositionsExact(source: seq<Entry>, h: Host)
    ensures forall i :: 0 <= i < |source| ==>
      (i in MissingPositions(source, h) <==> !IsSupported(source[i].detect, h))
    decreases |source|
  {
    if |source| > 0 {
      var tail := source[1..];
      MissingPositionsExact(tail, h);
      var rest := MissingPositions(tail, h);
      forall i | 0 <= i < |source|
        ensures i in MissingPositions(source, h) <==> !IsSupported(source[i].detect, h)
      {
        ShiftMembership(rest, if i == 0 then 0 else i - 1);
        if i > 0 {
          assert source[i] == tail[i - 1];
        }
      }
    }
  }

  /**
   * Order and exactness: the URL list is `prefix + file` of the entries at a
   * strictly increasing list of registry positions, and a position is on that
   * list exactly when its detector evaluates to false.
   */
  lemma OrderWitness(source: seq<Entry>, prefix: string, h: Host) returns (idx: seq<nat>)
    ensures |idx| == |FilesToLoad(source, prefix, h)|
    ensures forall k :: 0 <= k < |idx| ==>
      idx[k] < |source| && FilesToLoad(source, prefix, h)[k] == prefix + source[idx[k]].file
    ensures forall j, k :: 0 <= j < k < |idx| ==> idx[j] < idx[k]
    ensures forall i :: 0 <= i < |source| ==> (i in idx <==> !IsSupported(source[i].detect, h))
  {
    idx := MissingPositions(source, h);
    MissingPositionsSelect(source, h);
    MissingPositionsIncreasing(source, h);
    MissingPositionsExact(source, h);
  }

  /** Both directions of "requested iff some unsupported entry names that URL". */
  lemma RequestedIff(source: seq<Entry>, prefix: string, h: Host, url: string)
    ensures url in FilesToLoad(source, prefix, h) <==>
      exists i :: 0 <= i < |source| && !IsSupported(source[i].detect, h) && url == prefix + source[i].file
  {
    var urls := FilesToLoad(source, prefix, h);
    var idx := OrderWitness(source, prefix, h);
    if url in urls {
      var k :| 0 <= k < |urls| && urls[k] == url;
      assert idx[k] in idx;
    }
    if exists i :: 0 <= i < |source| && !IsSupported(source[i].detect, h) && url == prefix + source[i].file {
      var i :| 0 <= i < |source| && !IsSupported(source[i].detect, h) && url == prefix + source[i].file;
      var k :| 0 <= k < |idx| && idx[k] == i;
      assert urls[k] == url;
    }
  }

  /** Nothing is requested exactly when every detector evaluates to true. */
  lemma NothingRequestedIff(source: seq<Entry>, prefix: string, h: Host)
    ensures FilesToLoad(source, prefix, h) == [] <==>
      forall i :: 0 <= i < |source| ==> IsSupported(source[i].detect, h)
  {
    var idx := OrderWitness(source, prefix, h);
    if FilesToLoad(source, prefix, h) != [] {
      assert idx[0] in idx;
    }
  }

  /** When no detector evaluates to true, every file is requested, in registry order. */
  lemma {:induction false} NoneSupportedRequestsAll(source: seq<Entry>, prefix: string, h: Host)
    requires forall i :: 0 <= i < |source| ==> !IsSupported(source[i].detect, h)
    ensures FilesToLoad(source, prefix, h) == Prefixed(prefix, FileNames(source))
    decreases |source|
  {
    if |source| > 0 {
      FilesToLoadCons(source, prefix, h);
      NoneSupportedRequestsAll(source[1..], prefix, h);
      MapsDistribute(prefix, [source[0]], source[1..]);
      assert source == [source[0]] + source[1..];
    }
  }

  /**
   * Detectors are evaluated when the selection runs: the URL list depends on
   * the host only through what each detector answers on it.
   */
  lemma {:induction false} SameVerdictsSameRequests(source: seq<Entry>, prefix: string, h1: Host, h2: Host)
    requires forall i :: 0 <= i < |source| ==> IsSupported(source[i].detect, h1) == IsSupported(source[i].detect, h2)
    ensures FilesToLoad(source, prefix, h1) == FilesToLoad(source, prefix, h2)
    decreases |source|
  {
    if |source| > 0 {
      FilesToLoadCons(source, prefix, h1);
      FilesToLoadCons(source, prefix, h2);
      SameVerdictsSameRequests(source[1..], prefix, h1, h2);
    }
  }

  /** An entry whose detector, constant or function, evaluates to true is skipped wherever it stands. */
  lemma SupportedSkipped(a: seq<Entry>, e: Entry, b: seq<Entry>, prefix: string, h: Host)
    requires IsSupported(e.detect, h)
    ensures FilesToLoad(a + [e] + b, prefix, h) == FilesToLoad(a + b, prefix, h)
  {
    assert ([e] + b)[1..] == b;
    FilesToLoadCons([e] + b, prefix, h);
    assert a + [e] + b == a + ([e] + b);
    FilesToLoadAppend(a, [e] + b, prefix, h);
    FilesToLoadAppend(a, b, prefix, h);
  }

  /** The worked example: `[(false,"a.js"), (true,"b.js"), (false,"c.js")]` under "/p/". */
  lemma SelectionExample(h: Host)
    ensures FilesToLoad([Entry(Const(false), "a.js"), Entry(Const(true), "b.js"), Entry(Const(false), "c.js")], "/p/", h)
      == ["/p/a.js", "/p/c.js"]
  {
    var s := [Entry(Const(false), "a.js"), Entry(Const(true), "b.js"), Entry(Const(false), "c.js")];
    FilesToLoadCons(s, "/p/", h);
    FilesToLoadCons(s[1..], "/p/", h);
    FilesToLoadCons(s[2..], "/p/", h);
    assert s[2..][1..] == [];
    assert "/p/" + "a.js" == "/p/a.js";
    assert "/p/" + "c.js" == "/p/c.js";
  }

  /** No separator is inserted between the prefix and the file name. */
  lemma NoSeparatorInserted(h: Host)
    ensures FilesToLoad([Entry(Const(false), "fetch.js")], "node_modules/lib", h) == ["node_modules/libfetch.js"]
  {
    FilesToLoadCons([Entry(Const(false), "fetch.js")], "node_modules/lib", h);
    assert "node_modules/lib" + "fetch.js" == "node_modules/libfetch.js";
  }

  /** The default registry: seven entries, these file names, in this order. */
  lemma DefaultRegistry()
    ensures FileNames(DefaultPolyfills) == [
      "fetch.js", "es6-promise.min.js",
      "intersection-observer.js", "mutationobserver.min.js",
      "web-animations-next-lite.min.js",
      "html-import.js", "custom-elements.min.js"]
  {
  }

  /** What each default detector probes on the host. */
  lemma DefaultDetectors(h: Host)
    ensures IsSupported(DefaultPolyfills[0].detect, h) <==> "fetch" in h.globals
    ensures IsSupported(DefaultPolyfills[1].detect, h) <==> "Promise" in h.globals
    ensures IsSupported(DefaultPolyfills[2].detect, h) <==> "IntersectionObserver" in h.globals
    ensures IsSupported(DefaultPolyfills[3].detect, h) <==> "MutationObserver" in h.globals
    ensures IsSupported(DefaultPolyfills[4].detect, h) <==> "animate" in h.divProperties
    ensures IsSupported(DefaultPolyfills[5].detect, h) <==> "import" in h.linkProperties
    ensures IsSupported(DefaultPolyfills[6].detect, h) <==> "customElements" in h.globals
  {
  }

  /** A host that has none of the seven capabilities gets all seven files. */
  lemma DefaultOnBareHost(prefix: string, location: string)
    ensures FilesToLoad(DefaultPolyfills, prefix, Host({}, {}, {}, location)) == Prefixed(prefix, [
      "fetch.js", "es6-promise.min.js",
      "intersection-observer.js", "mutationobserver.min.js",
      "web-animations-next-lite.min.js",
      "html-import.js", "custom-elements.min.js"])
  {
    var h := Host({}, {}, {}, location);
    DefaultDetectors(h);
    NoneSupportedRequestsAll(DefaultPolyfills, prefix, h);
    DefaultRegistry();
  }
}
