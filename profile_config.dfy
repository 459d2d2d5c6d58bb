/** The settings of one browser profile and the ways of building one. */
module ProfileConfig {
  import opened Wrappers

  const DefaultCdpPort: nat := 9222

  datatype Profile = Profile(
    cdpPort: nat,
    userDataDir: Option<string>,
    browserPath: Option<string>,
    headless: bool,
    cdpUrl: Option<string>,
    extraArgs: seq<string>)

  /** `ProfileConfig::default`: port 9222, not headless, nothing else set. */
  function DefaultProfile(): (r: Profile)
    ensures r.cdpPort == DefaultCdpPort && !r.headless && r.extraArgs == []
    ensures r.userDataDir.None? && r.browserPath.None? && r.cdpUrl.None?
  {
    Profile(DefaultCdpPort, None, None, false, None, [])
  }

  /** `with_cdp_port`: the default profile with only the port changed. */
  function WithCdpPort(port: nat): (r: Profile)
    ensures r.cdpPort == port
    ensures r.(cdpPort := DefaultCdpPort) == DefaultProfile()
  {
    DefaultProfile().(cdpPort := port)
  }

  /** `remote`: the default profile with only the CDP url set. */
  function Remote(cdpUrl: string): (r: Profile)
    ensures r.cdpUrl == Some(cdpUrl)
    ensures r.(cdpUrl := None) == DefaultProfile()
  {
    DefaultProfile().(cdpUrl := Some(cdpUrl))
  }

  predicate IsRemote(p: Profile)
  {
    p.cdpUrl.Some?
  }

  /** A profile is remote exactly when it was built from a url, not from a port. */
  lemma RemoteProfiles(url: string, port: nat)
    ensures IsRemote(Remote(url)) && !IsRemote(WithCdpPort(port)) && !IsRemote(DefaultProfile())
  {
  }
}
