/**
 * The browser launcher: its settings, the builder setters, construction from
 * a profile, and the command line it starts the browser with.
 */
module Launcher {
  import opened Wrappers
  import Text
  import opened Errors
  import opened ProfileConfig
  import Config
  import opened Discovery

  datatype BrowserLauncher = BrowserLauncher(
    browserInfo: BrowserInfo,
    cdpPort: nat,
    headless: bool,
    stealth: bool,
    userDataDir: string,
    extraArgs: seq<string>)

  /** `<data dir>/actionbook/profiles/default`, with "." when the platform has no data directory. */
  function DefaultDataDir(dataDir: Option<string>): string
  {
    Config.JoinPath(Config.JoinPath(Config.JoinPath(dataDir.UnwrapOr("."), "actionbook"), "profiles"), "default")
  }

  /** The settings `new` and `with_browser_path` both start from. */
  function Initial(info: BrowserInfo, dataDir: Option<string>): (r: BrowserLauncher)
    ensures r.browserInfo == info && r.userDataDir == DefaultDataDir(dataDir)
    ensures r.cdpPort == 9222 && !r.headless && !r.stealth && r.extraArgs == []
  {
    BrowserLauncher(info, 9222, false, false, DefaultDataDir(dataDir), [])
  }

  /** `BrowserLauncher::new`: the discovered browser, or the discovery error. */
  method New(candidates: Candidates, home: Option<string>, present: string -> bool,
             run: string -> Option<ProcessOutput>, dataDir: Option<string>)
    returns (r: Result<BrowserLauncher, ActionbookError>)
    ensures var all := DiscoverAll(ExpandCandidates(candidates, home), present, run);
      && (r.Err? <==> all == [])
      && (r.Err? ==> r.error == BrowserNotFound)
      && (r.Ok? ==> r.value == Initial(all[0], dataDir))
  {
    var info := DiscoverBrowser(candidates, home, present, run);
    if info.Err? {
      return Err(info.error);
    }
    return Ok(Initial(info.value, dataDir));
  }

  /** `{:?}` of a path: the path in double quotes. */
  function DebugPath(path: string): string
  {
    "\"" + path + "\""
  }

  /** `with_browser_path`: a Chrome-compatible browser at the given path, which must exist. */
  function WithBrowserPath(path: string, present: string -> bool, dataDir: Option<string>): (r: Result<BrowserLauncher, ActionbookError>)
    ensures r.Err? <==> !present(path)
    ensures r.Err? ==> r.error == BrowserLaunchFailed("Browser not found at: " + DebugPath(path))
    ensures r.Ok? ==> r.value == Initial(BrowserInfo(Chrome, path, None), dataDir)
  {
    if !present(path) then Err(BrowserLaunchFailed("Browser not found at: " + DebugPath(path)))
    else Ok(Initial(BrowserInfo(Chrome, path, None), dataDir))
  }

  /**
   * `from_profile`: the profile's browser path or a discovered browser, then
   * the profile's port, headless flag and (tilde-expanded) data directory.
   */
  method FromProfile(profile: Profile, candidates: Candidates, home: Option<string>, present: string -> bool,
                     run: string -> Option<ProcessOutput>, dataDir: Option<string>)
    returns (r: Result<BrowserLauncher, ActionbookError>)
    ensures profile.browserPath.Some? ==>
      (r.Err? <==> !present(profile.browserPath.value))
    ensures profile.browserPath.None? ==>
      (r.Err? <==> DiscoverAll(ExpandCandidates(candidates, home), present, run) == [])
    ensures r.Err? && profile.browserPath.Some? ==>
      r.error == BrowserLaunchFailed("Browser not found at: " + DebugPath(profile.browserPath.value))
    ensures r.Err? && profile.browserPath.None? ==> r.error == BrowserNotFound
    ensures r.Ok? ==> r.value.cdpPort == profile.cdpPort && r.value.headless == profile.headless
    ensures r.Ok? ==> !r.value.stealth && r.value.extraArgs == []
    ensures r.Ok? ==> (r.value.userDataDir ==
      if profile.userDataDir.Some? then ExpandHome(profile.userDataDir.value, home) else DefaultDataDir(dataDir))
    ensures r.Ok? && profile.browserPath.Some? ==> r.value.browserInfo == BrowserInfo(Chrome, profile.browserPath.value, None)
    ensures r.Ok? && profile.browserPath.None? ==>
      r.value.browserInfo == DiscoverAll(ExpandCandidates(candidates, home), present, run)[0]
  {
    var launcher: BrowserLauncher;
    if profile.browserPath.Some? {
      var l := WithBrowserPath(profile.browserPath.value, present, dataDir);
      if l.Err? {
        return Err(l.error);
      }
      launcher := l.value;
    } else {
      var l := New(candidates, home, present, run, dataDir);
      if l.Err? {
        return Err(l.error);
      }
      launcher := l.value;
    }
    launcher := launcher.(cdpPort := profile.cdpPort, headless := profile.headless);
    if profile.userDataDir.Some? {
      launcher := launcher.(userDataDir := ExpandHome(profile.userDataDir.value, home));
    }
    return Ok(launcher);
  }

  // ---------------------------------------------------------------------
  // Builder setters: each changes its own field and nothing else
  // ---------------------------------------------------------------------

  function WithStealth(l: BrowserLauncher, stealth: bool): (r: BrowserLauncher)
    ensures r.stealth == stealth && r.(stealth := l.stealth) == l
  {
    l.(stealth := stealth)
  }

  function WithCdpPort(l: BrowserLauncher, port: nat): (r: BrowserLauncher)
    ensures r.cdpPort == port && r.(cdpPort := l.cdpPort) == l
  {
    l.(cdpPort := port)
  }

  function WithHeadless(l: BrowserLauncher, headless: bool): (r: BrowserLauncher)
    ensures r.headless == headless && r.(headless := l.headless) == l
  {
    l.(headless := headless)
  }

  function WithUserDataDir(l: BrowserLauncher, dir: string): (r: BrowserLauncher)
    ensures r.userDataDir == dir && r.(userDataDir := l.userDataDir) == l
  {
    l.(userDataDir := dir)
  }

  /** `extra_args` replaces the list rather than appending to it. */
  function WithExtraArgs(l: BrowserLauncher, args: seq<string>): (r: BrowserLauncher)
    ensures r.extraArgs == args && r.(extraArgs := l.extraArgs) == l
  {
    l.(extraArgs := args)
  }

  // ---------------------------------------------------------------------
  // The command line
  // ---------------------------------------------------------------------

  const PortFlag: string := "--remote-debugging-port="
  const DataDirFlag: string := "--user-data-dir="
  const HeadlessFlag: string := "--headless=new"

  /** The flags every launch carries against automation detection. */
  const AntiDetectionFlags: seq<string> := [
    "--disable-blink-features=AutomationControlled",
    "--disable-infobars",
    "--window-size=1920,1080",
    "--disable-save-password-bubble",
    "--disable-translate"]

  function FixedHead(l: BrowserLauncher): seq<string>
  {
    [PortFlag + Text.NatToString(l.cdpPort), DataDirFlag + l.userDataDir,
     "--no-first-run", "--no-default-browser-check"]
  }

  /** The command line `build_args` produces. */
  function Args(l: BrowserLauncher): seq<string>
  {
    FixedHead(l) + AntiDetectionFlags + (if l.headless then [HeadlessFlag] else []) + l.extraArgs
  }

  /** `build_args`: the vector built up push by push. */
  method BuildArgs(l: BrowserLauncher) returns (args: seq<string>)
    ensures args == Args(l)
  {
    args := [PortFlag + Text.NatToString(l.cdpPort), DataDirFlag + l.userDataDir,
             "--no-first-run", "--no-default-browser-check"];
    args := args + ["--disable-blink-features=AutomationControlled"];
    args := args + ["--disable-infobars"];
    args := args + ["--window-size=1920,1080"];
    args := args + ["--disable-save-password-bubble"];
    args := args + ["--disable-translate"];
    if l.headless {
      args := args + [HeadlessFlag];
    }
    args := args + l.extraArgs;
  }

  /**
   * The port flag comes first and the data directory second, the
   * anti-detection flags always follow, `--headless=new` is present only for
   * a headless launcher, and the extra arguments come last in their order.
   */
  lemma ArgsShape(l: BrowserLauncher)
    ensures var a := Args(l);
      && |a| == 9 + (if l.headless then 1 else 0) + |l.extraArgs|
      && a[0] == PortFlag + Text.NatToString(l.cdpPort)
      && a[1] == DataDirFlag + l.userDataDir
      && a[4..9] == AntiDetectionFlags
      && (l.headless ==> a[9] == HeadlessFlag)
      && a[|a| - |l.extraArgs|..] == l.extraArgs
  {
    var a := Args(l);
    assert a[..4] == FixedHead(l);
  }

  lemma FlagsDiffer()
    ensures HeadlessFlag != "--no-first-run" && HeadlessFlag != "--no-default-browser-check"
    ensures HeadlessFlag !in AntiDetectionFlags
    ensures forall s: string :: HeadlessFlag != PortFlag + s && HeadlessFlag != DataDirFlag + s
  {
    assert HeadlessFlag[2] == 'h';
    forall s: string
      ensures HeadlessFlag != PortFlag + s && HeadlessFlag != DataDirFlag + s
    {
      assert (PortFlag + s)[2] == 'r';
      assert (DataDirFlag + s)[2] == 'u';
    }
    assert "--no-first-run"[2] == 'n';
    assert "--no-default-browser-check"[2] == 'n';
    assert forall k :: 0 <= k < |AntiDetectionFlags| ==> AntiDetectionFlags[k][2] == 'd' || AntiDetectionFlags[k][2] == 'w';
  }

  /** Outside the extra arguments, `--headless=new` appears exactly when the launcher is headless. */
  lemma HeadlessFlagIff(l: BrowserLauncher)
    ensures var a := Args(l);
      HeadlessFlag in a[..|a| - |l.extraArgs|] <==> l.headless
  {
    var a := Args(l);
    var own := a[..|a| - |l.extraArgs|];
    assert own == FixedHead(l) + AntiDetectionFlags + (if l.headless then [HeadlessFlag] else []);
    FlagsDiffer();
    if !l.headless {
      assert own == FixedHead(l) + AntiDetectionFlags;
      assert HeadlessFlag !in FixedHead(l);
    }
  }

  /** The port flag reads back as the port, for every port a `u16` holds. */
  lemma PortFlagRoundTrip(l: BrowserLauncher)
    requires l.cdpPort <= Text.U16_MAX
    ensures var a := Args(l);
      Text.StartsWith(a[0], PortFlag) && Text.ParseUnsigned(a[0][|PortFlag|..], Text.U16_MAX) == Some(l.cdpPort)
  {
    var a := Args(l);
    assert a[0] == PortFlag + Text.NatToString(l.cdpPort);
    assert a[0][|PortFlag|..] == Text.NatToString(l.cdpPort);
    Text.FormatParseRoundTrip(l.cdpPort, Text.U16_MAX);
  }

  /** The stealth switch does not reach the command line. */
  lemma StealthNotInArgs(l: BrowserLauncher, stealth: bool)
    ensures Args(WithStealth(l, stealth)) == Args(l)
  {
  }

  /** A launcher carrying a profile's settings starts with its port and is headless when it is. */
  lemma FromProfileArgs(l: BrowserLauncher, profile: Profile)
    requires l.cdpPort == profile.cdpPort && l.headless == profile.headless
    ensures Args(l)[0] == PortFlag + Text.NatToString(profile.cdpPort)
    ensures profile.headless ==> Args(l)[9] == HeadlessFlag
  {
    ArgsShape(l);
  }
}
