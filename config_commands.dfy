/** `actionbook config set | get | reset`. */
module ConfigCommands {
  import opened Wrappers
  import opened Config
  import opened Errors

  /** The keys `set` and `get` know. */
  const KnownKeys: set<string> := {"api.base_url", "api.api_key", "browser.executable", "browser.default_profile", "browser.headless"}

  /** `str::parse::<bool>`: exactly "true" or "false". */
  function ParseBool(s: string): (r: Option<bool>)
    ensures r.Some? <==> s == "true" || s == "false"
  {
    if s == "true" then Some(true) else if s == "false" then Some(false) else None
  }

  function BoolToString(b: bool): (r: string)
  {
    if b then "true" else "false"
  }

  /** Printing a parsed bool gives back the text. */
  lemma BoolTextRoundTrip(s: string, b: bool)
    ensures ParseBool(s).Some? ==> BoolToString(ParseBool(s).value) == s
    ensures ParseBool(BoolToString(b)) == Some(b)
  {
  }

  function UnknownKey(key: string): ActionbookError
  {
    ConfigError("Unknown config key: " + key)
  }

  const HeadlessError: ActionbookError := ConfigError("headless must be true or false")

  /** `get`: the field named by the key, None for an unset optional field. */
  function Get(config: Config, key: string): (r: Result<Option<string>, ActionbookError>)
    reads config
    ensures r.Err? <==> key !in KnownKeys
    ensures r.Err? ==> r.error == UnknownKey(key)
  {
    if key == "api.base_url" then Ok(Some(config.api.baseUrl))
    else if key == "api.api_key" then Ok(config.api.apiKey)
    else if key == "browser.executable" then Ok(config.browser.executable)
    else if key == "browser.default_profile" then Ok(Some(config.browser.defaultProfile))
    else if key == "browser.headless" then Ok(Some(BoolToString(config.browser.headless)))
    else Err(UnknownKey(key))
  }

  /**
   * `set`: assign the value to the one field named by the key. A headless
   * value that is not a bool and an unknown key are errors, and then
   * nothing changes (nothing is saved). What was set is read back by `get`,
   * and every other key reads as before.
   */
  method Set(config: Config, key: string, value: string) returns (r: Result<(), ActionbookError>)
    modifies config
    ensures config.profiles == old(config.profiles)
    ensures key !in KnownKeys ==> r == Err(UnknownKey(key))
    ensures key == "browser.headless" && ParseBool(value).None? ==> r == Err(HeadlessError)
    ensures r.Ok? <==> key in KnownKeys && (key == "browser.headless" ==> ParseBool(value).Some?)
    ensures r.Err? ==> config.api == old(config.api) && config.browser == old(config.browser)
    ensures r.Ok? && key == "api.base_url" ==> config.api == old(config.api).(baseUrl := value) && config.browser == old(config.browser)
    ensures r.Ok? && key == "api.api_key" ==> config.api == old(config.api).(apiKey := Some(value)) && config.browser == old(config.browser)
    ensures r.Ok? && key == "browser.executable" ==> config.browser == old(config.browser).(executable := Some(value)) && config.api == old(config.api)
    ensures r.Ok? && key == "browser.default_profile" ==> config.browser == old(config.browser).(defaultProfile := value) && config.api == old(config.api)
    ensures r.Ok? && key == "browser.headless" ==> config.browser == old(config.browser).(headless := ParseBool(value).value) && config.api == old(config.api)
    ensures r.Ok? ==> Get(config, key) == Ok(Some(value))
    ensures forall k :: k != key ==> Get(config, k) == old(Get(config, k))
  {
    BoolTextRoundTrip(value, true);
    if key == "api.base_url" {
      config.api := config.api.(baseUrl := value);
    } else if key == "api.api_key" {
      config.api := config.api.(apiKey := Some(value));
    } else if key == "browser.executable" {
      config.browser := config.browser.(executable := Some(value));
    } else if key == "browser.default_profile" {
      config.browser := config.browser.(defaultProfile := value);
    } else if key == "browser.headless" {
      var b := ParseBool(value);
      if b.None? {
        return Err(HeadlessError);
      }
      config.browser := config.browser.(headless := b.value);
    } else {
      return Err(UnknownKey(key));
    }
    r := Ok(());
  }

  datatype ResetOutcome = NoConfig | Cancelled | Removed

  /**
   * `reset`: with no config file it reports `no_config` and removes nothing;
   * otherwise the file is removed unless the interactive prompt says no
   * (JSON mode does not ask).
   */
  function Reset(fileExists: bool, json: bool, confirmed: bool): (r: ResetOutcome)
    ensures !fileExists ==> r == NoConfig
    ensures r == Removed <==> fileExists && (json || confirmed)
  {
    if !fileExists then NoConfig
    else if !json && !confirmed then Cancelled
    else Removed
  }
}
