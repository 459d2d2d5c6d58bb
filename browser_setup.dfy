/** The browser step of `actionbook setup`: choosing isolated or extension mode. */
module BrowserSetup {
  import opened Wrappers
  import opened Config

  /**
   * The browser settings after applying a mode, given the paths of the
   * detected browsers in detection order. Isolated mode uses the first
   * detected browser (none: the built-in one) and runs headless.
   */
  function ModeApplied(b: BrowserConfig, mode: BrowserMode, detected: seq<string>): (r: BrowserConfig)
    ensures r.mode == mode
    ensures r.defaultProfile == b.defaultProfile && r.extension == b.extension && r.camofox == b.camofox
    ensures mode == Isolated ==> r.headless && r.executable == (if detected == [] then None else Some(detected[0]))
    ensures mode == Extension ==> r == b.(mode := Extension)
  {
    match mode
    case Isolated => b.(mode := Isolated, executable := if detected == [] then None else Some(detected[0]), headless := true)
    case Extension => b.(mode := Extension)
  }

  /** Applying a mode twice is applying it once. */
  lemma ModeAppliedIdempotent(b: BrowserConfig, mode: BrowserMode, detected: seq<string>)
    ensures ModeApplied(ModeApplied(b, mode, detected), mode, detected) == ModeApplied(b, mode, detected)
  {
  }

  /** `apply_browser_mode`: only the browser settings change. */
  method ApplyBrowserMode(config: Config, mode: BrowserMode, detected: seq<string>)
    modifies config
    ensures config.browser == ModeApplied(old(config.browser), mode, detected)
    ensures config.api == old(config.api) && config.profiles == old(config.profiles)
  {
    config.browser := config.browser.(mode := mode);
    match mode {
      case Isolated =>
        if |detected| > 0 {
          config.browser := config.browser.(executable := Some(detected[0]));
        } else {
          config.browser := config.browser.(executable := None);
        }
        config.browser := config.browser.(headless := true);
      case Extension =>
    }
  }

  /**
   * `configure_browser` without prompting: a `--browser` flag applies that
   * mode; non-interactive mode without one re-applies the configured mode.
   * Otherwise the interactive flow takes over (handled is false) and
   * nothing has changed yet.
   */
  method ConfigureBrowser(config: Config, flag: Option<BrowserMode>, nonInteractive: bool, detected: seq<string>)
    returns (handled: bool)
    modifies config
    ensures config.api == old(config.api) && config.profiles == old(config.profiles)
    ensures handled <==> flag.Some? || nonInteractive
    ensures flag.Some? ==> config.browser == ModeApplied(old(config.browser), flag.value, detected)
    ensures flag.None? && nonInteractive ==> config.browser == ModeApplied(old(config.browser), old(config.browser.mode), detected)
    ensures !handled ==> config.browser == old(config.browser)
  {
    if flag.Some? {
      ApplyBrowserMode(config, flag.value, detected);
      return true;
    }
    if nonInteractive {
      if config.browser.mode == Isolated {
        if |detected| > 0 {
          config.browser := config.browser.(executable := Some(detected[0]), headless := true);
        } else {
          config.browser := config.browser.(executable := None, headless := true);
        }
      }
      return true;
    }
    handled := false;
  }
}
