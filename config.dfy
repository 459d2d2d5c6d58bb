/**
 * The CLI configuration: API settings, browser settings and the named
 * profiles, with the rules for the default profile.
 */
module Config {
  import opened Wrappers
  import opened Text
  import opened ProfileConfig
  import opened Errors

  datatype BrowserMode = Isolated | Extension

  datatype ApiConfig = ApiConfig(baseUrl: string, apiKey: Option<string>)
  datatype ExtensionConfig = ExtensionConfig(port: nat, autoInstall: bool)
  datatype CamofoxConfig = CamofoxConfig(port: nat, userId: Option<string>, sessionKey: Option<string>, useWebdriver: bool, headless: bool)
  datatype BrowserConfig = BrowserConfig(
    mode: BrowserMode,
    executable: Option<string>,
    defaultProfile: string,
    headless: bool,
    extension: ExtensionConfig,
    camofox: CamofoxConfig)

  const DefaultApiUrl: string := "https://api.actionbook.dev"
  const DefaultProfileName: string := "actionbook"
  const DefaultExtensionPort: nat := 19222
  const DefaultCamofoxPort: nat := 9377

  function DefaultApi(): ApiConfig
  {
    ApiConfig(DefaultApiUrl, None)
  }

  function DefaultBrowser(): (r: BrowserConfig)
    ensures r.mode == Isolated && r.defaultProfile == DefaultProfileName && !r.headless
    ensures r.extension == ExtensionConfig(DefaultExtensionPort, true)
  {
    BrowserConfig(Isolated, None, DefaultProfileName, false, ExtensionConfig(DefaultExtensionPort, true),
      CamofoxConfig(DefaultCamofoxPort, None, None, false, false))
  }

  lemma DefaultNamePlain()
    ensures IsTrimmed(DefaultProfileName) && DefaultProfileName != []
  {
  }

  /** `normalize_default_profile_name`: the trimmed name, or "actionbook" when that is blank. */
  function NormalizeDefaultProfileName(name: string): (r: string)
    ensures r != [] && IsTrimmed(r)
    ensures Trim(name) != [] ==> r == Trim(name)
    ensures Trim(name) == [] ==> r == DefaultProfileName
  {
    TrimIsTrimmed(name);
    DefaultNamePlain();
    if Trim(name) == [] then DefaultProfileName else Trim(name)
  }

  /** Normalizing a normalized name changes nothing. */
  lemma NormalizeIdempotent(name: string)
    ensures NormalizeDefaultProfileName(NormalizeDefaultProfileName(name)) == NormalizeDefaultProfileName(name)
  {
    var r := NormalizeDefaultProfileName(name);
    TrimmedFixed(r);
  }

  /** `PathBuf::join` with a relative part. */
  function JoinPath(base: string, part: string): (r: string)
  {
    if base == [] then part
    else if base[|base| - 1] == '/' then base + part
    else base + "/" + part
  }

  /** `config_path_from_home`: `<home>/.actionbook/config.toml`, with "." for an unknown home. */
  function ConfigPathFromHome(home: Option<string>): (r: string)
  {
    JoinPath(JoinPath(home.UnwrapOr("."), ".actionbook"), "config.toml")
  }

  lemma JoinTwice(base: string, a: string, b: string)
    requires base != [] && base[|base| - 1] != '/' && a != [] && a[|a| - 1] != '/'
    ensures JoinPath(JoinPath(base, a), b) == base + "/" + a + "/" + b
  {
    var d := base + "/" + a;
    assert d[|d| - 1] == a[|a| - 1];
  }

  lemma ConfigDirPlain()
    ensures ".actionbook" != [] && ".actionbook"[|".actionbook"| - 1] != '/'
  {
  }

  /** With a home directory the file is `<home>/.actionbook/config.toml`. */
  lemma ConfigPathUnderHome(home: string)
    requires home != [] && home[|home| - 1] != '/'
    ensures ConfigPathFromHome(Some(home)) == home + "/" + ".actionbook" + "/" + "config.toml"
  {
    ConfigDirPlain();
    JoinTwice(home, ".actionbook", "config.toml");
  }

  /** Without one it is `./.actionbook/config.toml`. */
  lemma ConfigPathWithoutHome()
    ensures ConfigPathFromHome(None) == "./.actionbook/config.toml"
  {
    ConfigDirPlain();
    JoinTwice(".", ".actionbook", "config.toml");
  }

  const CannotRemoveDefault: string := "Cannot remove the default profile"

  class Config {
    var api: ApiConfig
    var browser: BrowserConfig
    var profiles: map<string, Profile>

    /** `Config::default`: default API and browser settings and one "actionbook" profile. */
    constructor Default()
      ensures api == DefaultApi() && browser == DefaultBrowser()
      ensures profiles == map[DefaultProfileName := DefaultProfile()]
    {
      api := DefaultApi();
      browser := DefaultBrowser();
      profiles := map[DefaultProfileName := DefaultProfile()];
    }

    /** A configuration with the given settings, as loaded from a file. */
    constructor (api: ApiConfig, browser: BrowserConfig, profiles: map<string, Profile>)
      ensures this.api == api && this.browser == browser && this.profiles == profiles
    {
      this.api := api;
      this.browser := browser;
      this.profiles := profiles;
    }

    function EffectiveDefaultProfileName(): (r: string)
      reads this
      ensures r != []
    {
      NormalizeDefaultProfileName(browser.defaultProfile)
    }

    /** The profile made up for the default name when none is stored. */
    function ImplicitDefaultProfile(): (r: Profile)
      reads this
      ensures r.browserPath == browser.executable && r.headless == browser.headless
      ensures r.(browserPath := None, headless := false) == DefaultProfile()
    {
      DefaultProfile().(browserPath := browser.executable, headless := browser.headless)
    }

    /**
     * `get_profile`, on the trimmed name: a stored profile first, then the
     * implicit default profile, else ProfileNotFound.
     */
    function GetProfile(name: string): (r: Result<Profile, ActionbookError>)
      reads this
      ensures Trim(name) in profiles ==> r == Ok(profiles[Trim(name)])
      ensures Trim(name) !in profiles && Trim(name) == EffectiveDefaultProfileName() ==> r == Ok(ImplicitDefaultProfile())
      ensures r.Err? <==> Trim(name) !in profiles && Trim(name) != EffectiveDefaultProfileName()
      ensures r.Err? ==> r.error == ProfileNotFound(Trim(name))
    {
      var n := Trim(name);
      if n in profiles then Ok(profiles[n])
      else if n == EffectiveDefaultProfileName() then Ok(ImplicitDefaultProfile())
      else Err(ProfileNotFound(n))
    }

    /** `set_profile`: store under the exact name, replacing any earlier entry. */
    method SetProfile(name: string, profile: Profile)
      modifies this
      ensures profiles == old(profiles)[name := profile]
      ensures api == old(api) && browser == old(browser)
    {
      profiles := profiles[name := profile];
    }

    /**
     * `remove_profile`: the effective default is refused; otherwise the
     * trimmed name is removed, or ProfileNotFound when it is not stored.
     */
    method RemoveProfile(name: string) returns (r: Result<(), ActionbookError>)
      modifies this
      ensures api == old(api) && browser == old(browser)
      ensures Trim(name) == old(EffectiveDefaultProfileName()) ==>
        r == Err(ConfigError(CannotRemoveDefault)) && profiles == old(profiles)
      ensures Trim(name) != old(EffectiveDefaultProfileName()) && Trim(name) in old(profiles) ==>
        r == Ok(()) && profiles == old(profiles) - {Trim(name)}
      ensures Trim(name) != old(EffectiveDefaultProfileName()) && Trim(name) !in old(profiles) ==>
        r == Err(ProfileNotFound(Trim(name))) && profiles == old(profiles)
    {
      var n := Trim(name);
      if n == EffectiveDefaultProfileName() {
        r := Err(ConfigError(CannotRemoveDefault));
      } else if n !in profiles {
        r := Err(ProfileNotFound(n));
      } else {
        profiles := profiles - {n};
        r := Ok(());
      }
    }
  }

  /** Surrounding whitespace in the requested name does not matter. */
  lemma GetProfileTrims(c: Config, name: string)
    ensures c.GetProfile(name) == c.GetProfile(Trim(name))
  {
    TrimIsTrimmed(name);
  }

  /** The effective default profile always resolves, stored or not. */
  lemma DefaultProfileResolves(c: Config)
    ensures c.GetProfile(c.EffectiveDefaultProfileName()).Ok?
  {
    TrimmedFixed(c.EffectiveDefaultProfileName());
  }

  /** A stored profile wins over the implicit default of the same name. */
  lemma StoredWinsOverImplicit(c: Config, name: string)
    requires Trim(name) in c.profiles
    ensures c.GetProfile(name) == Ok(c.profiles[Trim(name)])
  {
  }

  /** The default configuration holds the "actionbook" profile, which is also its default. */
  lemma DefaultConfigProfile(c: Config)
    requires c.api == DefaultApi() && c.browser == DefaultBrowser()
    requires c.profiles == map[DefaultProfileName := DefaultProfile()]
    ensures c.EffectiveDefaultProfileName() == DefaultProfileName
    ensures c.GetProfile(DefaultProfileName) == Ok(DefaultProfile())
  {
    DefaultNamePlain();
    TrimmedFixed(DefaultProfileName);
  }
}
