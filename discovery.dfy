/**
 * Browser discovery: per-platform candidate paths for each Chromium-based
 * browser, the first existing path of each, and the version reported by the
 * binary. The file system and running the binary are parameters.
 */
module Discovery {
  import opened Wrappers
  import Text
  import opened Errors

  datatype BrowserType = Chrome | Brave | Edge | Arc | Chromium

  /** `BrowserType::name`. */
  function Name(t: BrowserType): string
  {
    match t
    case Chrome => "Google Chrome"
    case Brave => "Brave"
    case Edge => "Microsoft Edge"
    case Arc => "Arc"
    case Chromium => "Chromium"
  }

  /** Different browser types have different display names. */
  lemma NameInjective(a: BrowserType, b: BrowserType)
    requires Name(a) == Name(b)
    ensures a == b
  {
  }

  datatype BrowserInfo = BrowserInfo(browserType: BrowserType, path: string, version: Option<string>)

  /** What running `<path> --version` gave: None when it could not be started. */
  datatype ProcessOutput = ProcessOutput(success: bool, stdout: string)

  /** The text after the last space, or all of it when there is none. */
  function LastWord(v: string): (r: string)
    ensures ' ' !in r && Text.EndsWith(v, r)
    ensures ' ' in v ==> v == v[..|v| - |r| - 1] + " " + r
    ensures ' ' !in v ==> r == v
  {
    match Text.RFindChar(v, ' ')
    case Some(idx) =>
      assert v == v[..idx] + " " + v[idx + 1..];
      v[idx + 1..]
    case None => v
  }

  /** `detect_version`: the last word of the trimmed output of a successful run. */
  function DetectVersion(output: Option<ProcessOutput>): (r: Option<string>)
    ensures r.Some? <==> output.Some? && output.value.success
    ensures r.Some? ==> r.value == LastWord(Text.Trim(output.value.stdout))
  {
    if output.None? || !output.value.success then None
    else Some(LastWord(Text.Trim(output.value.stdout)))
  }

  // ---------------------------------------------------------------------
  // Candidates
  // ---------------------------------------------------------------------

  datatype TargetOs = MacOs | LinuxOs | WindowsOs | OtherOs

  type Candidates = seq<(BrowserType, seq<string>)>

  function MacApp(name: string, binary: string): string
  {
    "/Applications/" + name + ".app/Contents/MacOS/" + binary
  }

  /** A macOS browser is looked for in /Applications and then in ~/Applications. */
  function MacPaths(name: string, binary: string): seq<string>
  {
    [MacApp(name, binary), "~" + MacApp(name, binary)]
  }

  /** The browser types `get_browser_candidates` lists for a platform, in priority order. */
  function CandidateTypes(os: TargetOs): seq<BrowserType>
  {
    match os
    case MacOs => [Chrome, Brave, Edge, Arc, Chromium]
    case LinuxOs => [Chrome, Brave, Edge, Chromium]
    case WindowsOs => [Chrome, Brave, Edge]
    case OtherOs => []
  }

  /** The paths `get_browser_candidates` lists for one browser type on a platform. */
  function CandidatePaths(os: TargetOs, t: BrowserType): seq<string>
  {
    match os
    case MacOs =>
      (match t
       case Chrome => MacPaths("Google Chrome", "Google Chrome")
       case Brave => MacPaths("Brave Browser", "Brave Browser")
       case Edge => MacPaths("Microsoft Edge", "Microsoft Edge")
       case Arc => MacPaths("Arc", "Arc")
       case Chromium => MacPaths("Chromium", "Chromium"))
    case LinuxOs =>
      (match t
       case Chrome => ["/usr/bin/google-chrome", "/usr/bin/google-chrome-stable", "/usr/bin/google-chrome-beta", "/snap/bin/chromium"]
       case Brave => ["/usr/bin/brave-browser", "/usr/bin/brave"]
       case Edge => ["/usr/bin/microsoft-edge", "/usr/bin/microsoft-edge-stable"]
       case Chromium => ["/usr/bin/chromium", "/usr/bin/chromium-browser"]
       case Arc => [])
    case WindowsOs =>
      (match t
       case Chrome => ["C:\\Program Files\\Google\\Chrome\\Application\\chrome.exe",
                       "C:\\Program Files (x86)\\Google\\Chrome\\Application\\chrome.exe"]
       case Brave => ["C:\\Program Files\\BraveSoftware\\Brave-Browser\\Application\\brave.exe",
                      "C:\\Program Files (x86)\\BraveSoftware\\Brave-Browser\\Application\\brave.exe"]
       case Edge => ["C:\\Program Files\\Microsoft\\Edge\\Application\\msedge.exe",
                     "C:\\Program Files (x86)\\Microsoft\\Edge\\Application\\msedge.exe"]
       case _ => [])
    case OtherOs => []
  }

  /** `get_browser_candidates`: each listed type with its paths. */
  function BrowserCandidates(os: TargetOs): (r: Candidates)
    ensures |r| == |CandidateTypes(os)|
    ensures forall k :: 0 <= k < |r| ==> r[k] == (CandidateTypes(os)[k], CandidatePaths(os, CandidateTypes(os)[k]))
  {
    var types := CandidateTypes(os);
    seq(|types|, k requires 0 <= k < |types| => (types[k], CandidatePaths(os, types[k])))
  }

  predicate DistinctTypes(c: Candidates)
  {
    forall a, b :: 0 <= a < b < |c| ==> c[a].0 != c[b].0
  }

  /** Every platform lists each browser type at most once. */
  lemma CandidateTypesDistinct(os: TargetOs)
    ensures DistinctTypes(BrowserCandidates(os))
  {
    var types := CandidateTypes(os);
    assert forall a, b :: 0 <= a < b < |types| ==> types[a] != types[b];
  }

  /** A leading `~` stands for the home directory, when there is one. */
  function ExpandHome(p: string, home: Option<string>): string
  {
    if home.Some? && |p| > 0 && p[0] == '~' && (|p| == 1 || p[1] == '/') then home.value + p[1..] else p
  }

  function ExpandPaths(paths: seq<string>, home: Option<string>): (r: seq<string>)
    ensures |r| == |paths|
    ensures forall k :: 0 <= k < |paths| ==> r[k] == ExpandHome(paths[k], home)
  {
    if paths == [] then [] else [ExpandHome(paths[0], home)] + ExpandPaths(paths[1..], home)
  }

  function ExpandCandidates(c: Candidates, home: Option<string>): (r: Candidates)
    ensures |r| == |c|
    ensures forall k :: 0 <= k < |c| ==> r[k] == (c[k].0, ExpandPaths(c[k].1, home))
  {
    if c == [] then [] else [(c[0].0, ExpandPaths(c[0].1, home))] + ExpandCandidates(c[1..], home)
  }

  // ---------------------------------------------------------------------
  // Discovery
  // ---------------------------------------------------------------------

  /** The first path the file system has. */
  function FirstExisting(paths: seq<string>, present: string -> bool): (r: Option<string>)
    ensures r.Some? ==> r.value in paths && present(r.value)
    ensures r.None? <==> forall k :: 0 <= k < |paths| ==> !present(paths[k])
  {
    if paths == [] then None
    else if present(paths[0]) then Some(paths[0])
    else FirstExisting(paths[1..], present)
  }

  lemma {:induction false} FirstExistingAt(paths: seq<string>, present: string -> bool, j: nat)
    requires j < |paths| && present(paths[j])
    requires forall k :: 0 <= k < j ==> !present(paths[k])
    ensures FirstExisting(paths, present) == Some(paths[j])
  {
    if j > 0 {
      FirstExistingAt(paths[1..], present, j - 1);
    }
  }

  /** `BrowserInfo::new(..).with_version()`. */
  function Found(t: BrowserType, path: string, run: string -> Option<ProcessOutput>): BrowserInfo
  {
    BrowserInfo(t, path, DetectVersion(run(path)))
  }

  /** What one candidate contributes: its first existing path, if any. */
  function EntryOf(cand: (BrowserType, seq<string>), present: string -> bool, run: string -> Option<ProcessOutput>): seq<BrowserInfo>
  {
    match FirstExisting(cand.1, present)
    case None => []
    case Some(p) => [Found(cand.0, p, run)]
  }

  /** `discover_all_browsers` over the candidate paths as given. */
  function DiscoverAll(c: Candidates, present: string -> bool, run: string -> Option<ProcessOutput>): (r: seq<BrowserInfo>)
    ensures |r| <= |c|
  {
    if c == [] then [] else DiscoverAll(c[..|c| - 1], present, run) + EntryOf(c[|c| - 1], present, run)
  }

  /** The indices of the candidates that exist, in increasing order. */
  function FoundIndices(c: Candidates, present: string -> bool): (r: seq<nat>)
    ensures forall m :: 0 <= m < |r| ==> r[m] < |c|
  {
    if c == [] then []
    else
      var rest := FoundIndices(c[..|c| - 1], present);
      if FirstExisting(c[|c| - 1].1, present).Some? then rest + [|c| - 1] else rest
  }

  /** Those indices increase, and they are exactly the candidates with an existing path. */
  lemma {:induction false} FoundIndicesShape(c: Candidates, present: string -> bool)
    ensures var idx := FoundIndices(c, present);
      && (forall a, b :: 0 <= a < b < |idx| ==> idx[a] < idx[b])
      && (forall k :: 0 <= k < |c| ==> (k in idx <==> FirstExisting(c[k].1, present).Some?))
  {
    if c != [] {
      var init := c[..|c| - 1];
      FoundIndicesShape(init, present);
      assert forall k :: 0 <= k < |init| ==> init[k] == c[k];
    }
  }

  /** Entry m of the result is the first existing path of candidate FoundIndices[m]. */
  lemma {:induction false} DiscoverAllIndexed(c: Candidates, present: string -> bool, run: string -> Option<ProcessOutput>)
    ensures var r := DiscoverAll(c, present, run); var idx := FoundIndices(c, present);
      && |idx| == |r|
      && (forall m :: 0 <= m < |idx| ==>
            && FirstExisting(c[idx[m]].1, present).Some?
            && r[m] == Found(c[idx[m]].0, FirstExisting(c[idx[m]].1, present).value, run))
  {
    if c != [] {
      var init := c[..|c| - 1];
      DiscoverAllIndexed(init, present, run);
      var ri := DiscoverAll(init, present, run);
      var ii := FoundIndices(init, present);
      var r := DiscoverAll(c, present, run);
      var idx := FoundIndices(c, present);
      var last := c[|c| - 1];
      assert r == ri + EntryOf(last, present, run);
      forall m | 0 <= m < |idx|
        ensures FirstExisting(c[idx[m]].1, present).Some?
        ensures r[m] == Found(c[idx[m]].0, FirstExisting(c[idx[m]].1, present).value, run)
      {
        if m < |ii| {
          assert idx[m] == ii[m] && r[m] == ri[m];
          assert c[ii[m]] == init[ii[m]];
        } else {
          assert idx[m] == |c| - 1;
        }
      }
    }
  }

  /** With distinct candidate types, no browser type is reported twice. */
  lemma DiscoverAllDistinct(c: Candidates, present: string -> bool, run: string -> Option<ProcessOutput>)
    requires DistinctTypes(c)
    ensures var r := DiscoverAll(c, present, run);
      forall a, b :: 0 <= a < b < |r| ==> r[a].browserType != r[b].browserType
  {
    DiscoverAllIndexed(c, present, run);
    FoundIndicesShape(c, present);
  }

  /** Nothing is found exactly when no candidate path exists. */
  lemma DiscoverAllEmpty(c: Candidates, present: string -> bool, run: string -> Option<ProcessOutput>)
    ensures DiscoverAll(c, present, run) == [] <==>
      forall k, j :: 0 <= k < |c| && 0 <= j < |c[k].1| ==> !present(c[k].1[j])
  {
    DiscoverAllIndexed(c, present, run);
    FoundIndicesShape(c, present);
    var idx := FoundIndices(c, present);
    if idx != [] {
      var k := idx[0];
      var p := FirstExisting(c[k].1, present).value;
      var j :| 0 <= j < |c[k].1| && c[k].1[j] == p;
    } else {
      forall k, j | 0 <= k < |c| && 0 <= j < |c[k].1|
        ensures !present(c[k].1[j])
      {
        assert k !in idx;
      }
    }
  }

  /** The inner loop of `discover_all_browsers`: push the first existing path and stop. */
  method PushFirstExisting(found: seq<BrowserInfo>, browserType: BrowserType, paths: seq<string>,
                           present: string -> bool, run: string -> Option<ProcessOutput>)
    returns (r: seq<BrowserInfo>)
    ensures r == found + EntryOf((browserType, paths), present, run)
  {
    r := found;
    var j := 0;
    while j < |paths|
      invariant 0 <= j <= |paths|
      invariant forall k :: 0 <= k < j ==> !present(paths[k])
    {
      if present(paths[j]) {
        FirstExistingAt(paths, present, j);
        r := r + [Found(browserType, paths[j], run)];
        return;
      }
      j := j + 1;
    }
  }

  /**
   * `discover_all_browsers`: for each browser type in order, the first
   * candidate path that exists. A leading `~` is read as the home directory
   * (see Findings in the README).
   */
  method DiscoverAllBrowsers(candidates: Candidates, home: Option<string>, present: string -> bool,
                             run: string -> Option<ProcessOutput>) returns (found: seq<BrowserInfo>)
    ensures found == DiscoverAll(ExpandCandidates(candidates, home), present, run)
  {
    var c := ExpandCandidates(candidates, home);
    found := [];
    var i := 0;
    while i < |c|
      invariant 0 <= i <= |c|
      invariant found == DiscoverAll(c[..i], present, run)
    {
      found := PushFirstExisting(found, c[i].0, c[i].1, present, run);
      DiscoverAllSnoc(c, i, present, run);
      i := i + 1;
    }
    assert c[..|c|] == c;
  }

  lemma DiscoverAllSnoc(c: Candidates, i: nat, present: string -> bool, run: string -> Option<ProcessOutput>)
    requires i < |c|
    ensures DiscoverAll(c[..i + 1], present, run) == DiscoverAll(c[..i], present, run) + EntryOf(c[i], present, run)
  {
    assert c[..i + 1][..i] == c[..i];
  }

  /** `discover_browser`: the first browser found, or BrowserNotFound. */
  method DiscoverBrowser(candidates: Candidates, home: Option<string>, present: string -> bool,
                         run: string -> Option<ProcessOutput>) returns (r: Result<BrowserInfo, ActionbookError>)
    ensures var all := DiscoverAll(ExpandCandidates(candidates, home), present, run);
      && (r.Err? <==> all == [])
      && (r.Err? ==> r.error == BrowserNotFound)
      && (r.Ok? ==> r.value == all[0])
  {
    var browsers := DiscoverAllBrowsers(candidates, home, present, run);
    if browsers == [] {
      return Err(BrowserNotFound);
    }
    return Ok(browsers[0]);
  }

  // ---------------------------------------------------------------------
  // The `~/Applications` candidates
  // ---------------------------------------------------------------------

  lemma MacChromeCandidate()
    ensures BrowserCandidates(MacOs)[0] == (Chrome, MacPaths("Google Chrome", "Google Chrome"))
  {
    assert CandidateTypes(MacOs)[0] == Chrome;
  }

  /**
   * Checked as written, the `~/Applications` candidate names a directory
   * called `~` under the working directory, so a Chrome installed only in
   * the user's own Applications folder is not found; reading `~` as the home
   * directory finds it.
   */
  lemma HomeApplicationsMissed(home: string, run: string -> Option<ProcessOutput>)
    requires |home| > 0 && home[0] == '/'
    ensures var app := MacApp("Google Chrome", "Google Chrome");
      var onlyHome := (q: string) => q == home + app;
      var chrome := [BrowserCandidates(MacOs)[0]];
      && DiscoverAll(chrome, onlyHome, run) == []
      && DiscoverAll(ExpandCandidates(chrome, Some(home)), onlyHome, run) == [Found(Chrome, home + app, run)]
  {
    var app := MacApp("Google Chrome", "Google Chrome");
    var onlyHome := (q: string) => q == home + app;
    MacChromeCandidate();
    var paths := MacPaths("Google Chrome", "Google Chrome");
    assert paths[0] != home + app by {
      assert |paths[0]| < |home + app|;
    }
    assert paths[1] != home + app by {
      assert paths[1][0] == '~';
      assert (home + app)[0] == '/';
    }
    assert FirstExisting(paths, onlyHome) == None;
    var chrome := [(Chrome, paths)];
    assert chrome[..0] == [];
    assert DiscoverAll(chrome, onlyHome, run) == [];
    var ex := ExpandCandidates(chrome, Some(home));
    assert ex[0].1[1] == home + app;
    FirstExistingAt(ex[0].1, onlyHome, 1);
    assert ex[..0] == [];
  }
}
