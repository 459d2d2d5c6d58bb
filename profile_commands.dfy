/** `actionbook profile create | delete | list` over the loaded configuration. */
module ProfileCommands {
  import opened Wrappers
  import opened Text
  import opened ProfileConfig
  import opened Config
  import opened Errors

  const U16Modulus: nat := 0x1_0000

  /** The ports of the stored profiles. */
  function Ports(profiles: map<string, Profile>): (r: set<nat>)
    ensures forall n :: n in profiles ==> profiles[n].cdpPort in r
    ensures forall p :: p in r ==> exists n :: n in profiles && profiles[n].cdpPort == p
  {
    set n | n in profiles :: profiles[n].cdpPort
  }

  lemma {:induction false} MaxOf(s: set<nat>) returns (m: nat)
    requires s != {}
    ensures m in s && forall x :: x in s ==> x <= m
    decreases |s|
  {
    var x :| x in s;
    var rest := s - {x};
    if rest == {} {
      assert s == {x};
      m := x;
    } else {
      var k := MaxOf(rest);
      m := if x > k then x else k;
      assert forall y :: y in s ==> y == x || y in rest;
    }
  }

  lemma MaxExists(s: set<nat>)
    requires s != {}
    ensures exists m :: m in s && forall x :: x in s ==> x <= m
  {
    var m := MaxOf(s);
  }

  /** The largest element of a non-empty set. */
  function Max(s: set<nat>): (r: nat)
    requires s != {}
    ensures r in s && forall x :: x in s ==> x <= r
  {
    MaxExists(s);
    var m :| m in s && (forall x :: x in s ==> x <= m);
    m
  }

  /**
   * The port `create` picks without `--cdp-port`: one more than the largest
   * stored port, 9221 standing in for none. The sum is a `u16` and wraps.
   */
  function AutoPort(profiles: map<string, Profile>): (r: nat)
    ensures r < U16Modulus
  {
    var base := if Ports(profiles) == {} then DefaultCdpPort - 1 else Max(Ports(profiles));
    (base + 1) % U16Modulus
  }

  /** Without profiles the port is 9222; otherwise, below the top port, it is above every stored port. */
  lemma AutoPortAboveAll(profiles: map<string, Profile>)
    requires forall n :: n in profiles ==> profiles[n].cdpPort < U16Modulus - 1
    ensures profiles == map[] ==> AutoPort(profiles) == DefaultCdpPort
    ensures forall n :: n in profiles ==> profiles[n].cdpPort < AutoPort(profiles)
  {
    if Ports(profiles) != {} {
      var m := Max(Ports(profiles));
      var n :| n in profiles && profiles[n].cdpPort == m;
    }
  }

  /** A stored port of 65535 makes the sum wrap to port 0. */
  lemma AutoPortWrapsAtTop(profiles: map<string, Profile>, name: string)
    requires name in profiles && profiles[name].cdpPort == U16Modulus - 1
    requires forall n :: n in profiles ==> profiles[n].cdpPort < U16Modulus
    ensures AutoPort(profiles) == 0
  {
    assert Max(Ports(profiles)) == U16Modulus - 1;
  }

  /**
   * `create`: the given port, or the automatic one, in a fresh profile
   * stored under the name (replacing an earlier one); nothing else changes.
   */
  method Create(config: Config, name: string, cdpPort: Option<nat>) returns (profile: Profile)
    modifies config
    ensures profile == WithCdpPort(if cdpPort.Some? then cdpPort.value else AutoPort(old(config.profiles)))
    ensures config.profiles == old(config.profiles)[name := profile]
    ensures config.api == old(config.api) && config.browser == old(config.browser)
  {
    if cdpPort.Some? {
      profile := WithCdpPort(cdpPort.value);
    } else {
      profile := WithCdpPort(AutoPort(config.profiles));
    }
    config.SetProfile(name, profile);
  }

  /** `delete`: `remove_profile`, so the default profile cannot be deleted. */
  method Delete(config: Config, name: string) returns (r: Result<(), ActionbookError>)
    modifies config
    ensures Trim(name) == old(config.EffectiveDefaultProfileName()) ==> r.Err? && config.profiles == old(config.profiles)
    ensures r.Ok? <==> Trim(name) != old(config.EffectiveDefaultProfileName()) && Trim(name) in old(config.profiles)
    ensures r.Ok? ==> config.profiles == old(config.profiles) - {Trim(name)}
    ensures r.Err? ==> config.profiles == old(config.profiles)
    ensures config.api == old(config.api) && config.browser == old(config.browser)
  {
    r := config.RemoveProfile(name);
  }

  /**
   * The extra line `list` prints for the configured default profile when no
   * profile is stored under that exact name: the name and its port, 9222
   * when it does not resolve.
   */
  function ImplicitListEntry(config: Config): (r: Option<(string, nat)>)
    reads config
    ensures r.Some? <==> config.browser.defaultProfile !in config.profiles
    ensures r.Some? ==> r.value.0 == config.browser.defaultProfile
  {
    var name := config.browser.defaultProfile;
    if name in config.profiles then None
    else
      var port := match config.GetProfile(name)
        case Ok(p) => p.cdpPort
        case Err(_) => DefaultCdpPort;
      Some((name, port))
  }

  /** The implicit entry shows a stored profile's port (reached through trimming) or 9222. */
  lemma ImplicitListPort(config: Config)
    requires ImplicitListEntry(config).Some?
    ensures var port := ImplicitListEntry(config).value.1;
      var n := Trim(config.browser.defaultProfile);
      (n in config.profiles && port == config.profiles[n].cdpPort)
      || (n !in config.profiles && port == DefaultCdpPort)
  {
  }
}
