/** The API-key step of `actionbook setup`. */
module ApiKeySetup {
  import opened Wrappers
  import opened Config

  /**
   * `mask_key`: a key of at most 8 characters becomes as many stars;
   * a longer one shows its first and last four characters around "...".
   */
  function MaskKey(key: string): (r: string)
    ensures |key| <= 8 ==> |r| == |key| && forall i :: 0 <= i < |r| ==> r[i] == '*'
    ensures |key| > 8 ==> |r| == 11 && r[..4] == key[..4] && r[4..7] == "..." && r[7..] == key[|key| - 4..]
  {
    if |key| <= 8 then seq(|key|, _ => '*')
    else key[..4] + "..." + key[|key| - 4..]
  }

  /**
   * Nothing but the ends of a long key, or the length of a short one, shows:
   * keys that agree there mask alike.
   */
  lemma MaskShowsOnlyEnds(k1: string, k2: string)
    requires (|k1| <= 8 && |k2| == |k1|)
      || (|k1| > 8 && |k2| > 8 && k1[..4] == k2[..4] && k1[|k1| - 4..] == k2[|k2| - 4..])
    ensures MaskKey(k1) == MaskKey(k2)
  {
  }

  /** `resolve_existing_key`: the flag, then the environment, then the config, with the source's name. */
  function ResolveExistingKey(flag: Option<string>, envKey: Option<string>, configKey: Option<string>): (r: (Option<string>, string))
    ensures flag.Some? ==> r == (flag, "flag")
    ensures flag.None? && envKey.Some? ==> r == (envKey, "env")
    ensures flag.None? && envKey.None? && configKey.Some? ==> r == (configKey, "config")
    ensures r.0.None? <==> r.1 == "none"
    ensures r.0.None? <==> flag.None? && envKey.None? && configKey.None?
  {
    if flag.Some? then (flag, "flag")
    else if envKey.Some? then (envKey, "env")
    else if configKey.Some? then (configKey, "config")
    else (None, "none")
  }

  datatype KeyOutcome = Stored | SkippedNoKey | Prompt

  /**
   * The branches of `configure_api_key` before the input prompt. A key that
   * was found is stored as it is when it came from the flag, in
   * non-interactive mode, or when the user keeps it (keep); a rejected key
   * is cleared before prompting. Without a key, non-interactive mode skips
   * and leaves the config alone; interactive mode goes on to the prompt.
   */
  method ConfigureApiKey(config: Config, flag: Option<string>, envKey: Option<string>, nonInteractive: bool, keep: bool)
    returns (outcome: KeyOutcome)
    modifies config
    ensures config.browser == old(config.browser) && config.profiles == old(config.profiles)
    ensures config.api.baseUrl == old(config.api.baseUrl)
    ensures var existing := ResolveExistingKey(flag, envKey, old(config.api.apiKey)).0;
      (existing.Some? && (flag.Some? || nonInteractive || keep) ==> outcome == Stored && config.api.apiKey == existing)
      && (existing.Some? && !(flag.Some? || nonInteractive || keep) ==> outcome == Prompt && config.api.apiKey.None?)
      && (existing.None? && nonInteractive ==> outcome == SkippedNoKey && config.api == old(config.api))
      && (existing.None? && !nonInteractive ==> outcome == Prompt && config.api == old(config.api))
  {
    var (existing, _) := ResolveExistingKey(flag, envKey, config.api.apiKey);
    if existing.Some? {
      if flag.Some? || nonInteractive || keep {
        config.api := config.api.(apiKey := existing);
        return Stored;
      }
      config.api := config.api.(apiKey := None);
      return Prompt;
    } else if nonInteractive {
      return SkippedNoKey;
    }
    outcome := Prompt;
  }
}
