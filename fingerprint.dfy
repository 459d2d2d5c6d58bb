/**
 * The fingerprint generator: per-OS tables of screens, GPUs and hardware,
 * a weighted choice from each, and the profile assembled from the choices.
 *
 * The random number generator is an endless stream of raw draws; the
 * sampler turns one draw into an index of the table it samples from. Which
 * indices are likely (the weights) is not modelled, only that every choice
 * comes from the right table.
 */
module Fingerprint {
  import opened Wrappers
  import Text

  datatype OperatingSystem = Windows | MacOsIntel | MacOsArm | Linux

  predicate IsMac(os: OperatingSystem)
  {
    os == MacOsIntel || os == MacOsArm
  }

  /** `navigator.platform` for an OS. */
  function Platform(os: OperatingSystem): (r: string)
    ensures os == Windows ==> r == "Win32"
    ensures IsMac(os) ==> r == "MacIntel"
    ensures os == Linux ==> r == "Linux x86_64"
  {
    match os
    case Windows => "Win32"
    case MacOsIntel => "MacIntel"
    case MacOsArm => "MacIntel"
    case Linux => "Linux x86_64"
  }

  /** The word in the user agent that names the OS family. */
  function OsWord(os: OperatingSystem): string
  {
    match os
    case Windows => "Windows"
    case MacOsIntel => "Macintosh"
    case MacOsArm => "Macintosh"
    case Linux => "Linux"
  }

  /** What the user agent says before and after that word inside its parentheses. */
  function OsTokenBefore(os: OperatingSystem): string
  {
    if os == Linux then "X11; " else ""
  }

  function OsTokenAfter(os: OperatingSystem): string
  {
    match os
    case Windows => " NT 10.0; Win64; x64"
    case MacOsIntel => "; Intel Mac OS X 10_15_7"
    case MacOsArm => "; Intel Mac OS X 10_15_7"
    case Linux => " x86_64"
  }

  function UaHead(os: OperatingSystem): string
  {
    "Mozilla/5.0 (" + OsTokenBefore(os) + OsWord(os) + OsTokenAfter(os)
      + ") AppleWebKit/537.36 (KHTML, like Gecko) "
  }

  function ChromeToken(version: nat): string
  {
    "Chrome/" + Text.NatToString(version) + ".0.0.0"
  }

  /** `OperatingSystem::user_agent`. */
  function UserAgent(os: OperatingSystem, version: nat): string
  {
    UaHead(os) + ChromeToken(version) + " Safari/537.36"
  }

  lemma ContainsMiddle(a: string, b: string, c: string)
    ensures Text.Contains(a + b + c, b)
  {
    var s := a + b + c;
    assert s[|a|..|a| + |b|] == b;
    Text.ContainsAt(s, b, |a|);
  }

  /** The second of six concatenated parts is contained in the whole. */
  lemma ContainsSecond(a: string, b: string, c: string, d: string, e: string, f: string)
    ensures Text.Contains(a + b + c + d + e + f, b)
  {
    assert a + b + c + d + e + f == a + b + (c + d + e + f);
    ContainsMiddle(a, b, c + d + e + f);
  }

  /** The user agent names the OS family and carries the Chrome version. */
  lemma UserAgentMentions(os: OperatingSystem, version: nat)
    ensures Text.Contains(UserAgent(os, version), OsWord(os))
    ensures Text.Contains(UserAgent(os, version), ChromeToken(version))
  {
    ContainsSecond("Mozilla/5.0 (" + OsTokenBefore(os), OsWord(os), OsTokenAfter(os),
      ") AppleWebKit/537.36 (KHTML, like Gecko) ", ChromeToken(version), " Safari/537.36");
    ContainsMiddle(UaHead(os), ChromeToken(version), " Safari/537.36");
  }

  /** Text around two strings cancels. */
  lemma CancelAround(h: string, x: string, y: string, t: string)
    requires h + x + t == h + y + t
    ensures x == y
  {
    assert |x| == |y|;
    assert x == (h + x + t)[|h|..|h| + |x|];
    assert y == (h + y + t)[|h|..|h| + |y|];
  }

  /** The version is recoverable from the user agent: different versions give different agents. */
  lemma UserAgentInjective(os: OperatingSystem, v1: nat, v2: nat)
    requires UserAgent(os, v1) == UserAgent(os, v2)
    ensures v1 == v2
  {
    CancelAround(UaHead(os), ChromeToken(v1), ChromeToken(v2), " Safari/537.36");
    CancelAround("Chrome/", Text.NatToString(v1), Text.NatToString(v2), ".0.0.0");
    Text.NatToStringInjective(v1, v2);
  }

  /** `typical_languages`: the same for every OS. */
  function TypicalLanguages(os: OperatingSystem): (r: seq<string>)
    ensures r == ["en-US", "en"]
  {
    match os
    case Linux => ["en-US", "en"]
    case _ => ["en-US", "en"]
  }

  /** `typical_timezone`. */
  function TypicalTimezone(os: OperatingSystem): (r: string)
    ensures IsMac(os) ==> r == "America/Los_Angeles"
    ensures !IsMac(os) ==> r == "America/New_York"
  {
    match os
    case Windows => "America/New_York"
    case MacOsIntel => "America/Los_Angeles"
    case MacOsArm => "America/Los_Angeles"
    case Linux => "America/New_York"
  }

  // ---------------------------------------------------------------------
  // Tables
  // ---------------------------------------------------------------------

  datatype ScreenResolution = ScreenResolution(width: nat, height: nat, availWidth: nat, availHeight: nat)

  /** `ScreenResolution::new`: a taskbar of 40 pixels on tall screens or 30 otherwise is subtracted, never going below 0. */
  function NewScreen(width: nat, height: nat): (r: ScreenResolution)
    ensures r.width == width && r.height == height && r.availWidth == width
    ensures height > 1000 ==> r.availHeight == height - 40
    ensures height <= 1000 && height >= 30 ==> r.availHeight == height - 30
    ensures height < 30 ==> r.availHeight == 0
    ensures r.availHeight <= height
  {
    var taskbar := if height > 1000 then 40 else 30;
    ScreenResolution(width, height, width, if height >= taskbar then height - taskbar else 0)
  }

  /** A table of choices with their market shares. */
  type Table<T> = seq<(T, real)>

  /** What `WeightedIndex::new` accepts without error: at least one entry, every weight positive. */
  predicate ValidWeights<T>(t: Table<T>)
  {
    |t| > 0 && forall i :: 0 <= i < |t| ==> t[i].1 > 0.0
  }

  predicate InTable<T(==)>(x: T, t: Table<T>)
  {
    exists i :: 0 <= i < |t| && t[i].0 == x
  }

  /** `ScreenResolution::common_resolutions`. */
  function CommonResolutions(): Table<ScreenResolution>
  {
    [(NewScreen(1920, 1080), 23.0), (NewScreen(1366, 768), 19.0), (NewScreen(1440, 900), 9.0),
     (NewScreen(1536, 864), 8.0), (NewScreen(1280, 720), 7.0), (NewScreen(2560, 1440), 6.0),
     (NewScreen(1600, 900), 5.0), (NewScreen(1280, 1024), 4.0), (NewScreen(1920, 1200), 3.5),
     (NewScreen(3840, 2160), 2.5), (NewScreen(2560, 1600), 2.0), (NewScreen(1680, 1050), 2.0)]
  }

  /** `ScreenResolution::for_os`. */
  function ScreensFor(os: OperatingSystem): Table<ScreenResolution>
  {
    match os
    case Windows => CommonResolutions()
    case MacOsIntel => MacScreens()
    case MacOsArm => MacScreens()
    case Linux =>
      [(NewScreen(1920, 1080), 40.0), (NewScreen(2560, 1440), 25.0), (NewScreen(1366, 768), 15.0),
       (NewScreen(3840, 2160), 10.0), (NewScreen(1680, 1050), 10.0)]
  }

  function MacScreens(): Table<ScreenResolution>
  {
    [(NewScreen(2560, 1600), 30.0), (NewScreen(2880, 1800), 20.0), (NewScreen(3024, 1964), 15.0),
     (NewScreen(1920, 1080), 15.0), (NewScreen(2560, 1440), 10.0), (NewScreen(3840, 2160), 10.0)]
  }

  datatype Gpu = Gpu(vendor: string, renderer: string)

  const Nvidia := "NVIDIA Corporation"
  const Intel := "Intel Inc."
  const Amd := "AMD"
  const Apple := "Apple Inc."

  /** `GPU::windows_gpus`. */
  function WindowsGpus(): Table<Gpu>
  {
    [(Gpu(Nvidia, "NVIDIA GeForce RTX 3060"), 12.0), (Gpu(Nvidia, "NVIDIA GeForce RTX 4060"), 10.0),
     (Gpu(Nvidia, "NVIDIA GeForce RTX 3070"), 8.0), (Gpu(Intel, "Intel UHD Graphics 630"), 15.0),
     (Gpu(Intel, "Intel Iris Xe Graphics"), 12.0), (Gpu(Amd, "AMD Radeon RX 6800"), 8.0),
     (Gpu(Amd, "AMD Radeon RX 7800 XT"), 7.0), (Gpu(Nvidia, "NVIDIA GeForce GTX 1660"), 6.0)]
  }

  /** `GPU::mac_gpus`. */
  function MacGpus(): Table<Gpu>
  {
    [(Gpu(Apple, "Apple M3 Pro"), 25.0), (Gpu(Apple, "Apple M3 Max"), 20.0),
     (Gpu(Apple, "Apple M2 Pro"), 15.0), (Gpu(Apple, "Apple M2 Max"), 12.0),
     (Gpu(Apple, "Apple M1 Pro"), 10.0), (Gpu(Apple, "Apple M1 Max"), 8.0),
     (Gpu(Apple, "Apple M4 Max"), 10.0)]
  }

  /** `GPU::linux_gpus`. */
  function LinuxGpus(): Table<Gpu>
  {
    [(Gpu(Nvidia, "NVIDIA GeForce RTX 3060"), 20.0), (Gpu(Intel, "Intel UHD Graphics 630"), 25.0),
     (Gpu(Amd, "AMD Radeon RX 6800"), 15.0), (Gpu(Nvidia, "NVIDIA GeForce RTX 4070"), 12.0),
     (Gpu(Intel, "Intel Iris Xe Graphics"), 10.0)]
  }

  /** The GPU table `choose_gpu_for_os` samples from. */
  function GpusFor(os: OperatingSystem): Table<Gpu>
  {
    match os
    case Windows => WindowsGpus()
    case MacOsIntel => MacGpus()
    case MacOsArm => MacGpus()
    case Linux => LinuxGpus()
  }

  datatype HardwareConfig = HardwareConfig(cpuCores: nat, deviceMemory: nat)

  /** `HardwareConfig::common_configs`. */
  function HardwareConfigs(): Table<HardwareConfig>
  {
    [(HardwareConfig(8, 16), 25.0), (HardwareConfig(6, 8), 20.0), (HardwareConfig(4, 8), 18.0),
     (HardwareConfig(12, 32), 12.0), (HardwareConfig(8, 32), 10.0), (HardwareConfig(16, 64), 5.0),
     (HardwareConfig(4, 4), 10.0)]
  }

  /** The market shares `choose_os` draws from. */
  function OsShares(): Table<OperatingSystem>
  {
    [(Windows, 75.0), (MacOsArm, 12.0), (MacOsIntel, 8.0), (Linux, 5.0)]
  }

  /** The Chrome versions `choose_chrome_version` draws from. */
  function ChromeVersions(): Table<nat>
  {
    [(131, 30.0), (130, 25.0), (129, 20.0), (128, 15.0), (127, 10.0)]
  }

  /** No call of `weighted_choice` in the generator can hit the "Invalid weights" panic. */
  lemma TablesValid(os: OperatingSystem)
    ensures ValidWeights(OsShares()) && ValidWeights(ChromeVersions()) && ValidWeights(HardwareConfigs())
    ensures ValidWeights(ScreensFor(os)) && ValidWeights(GpusFor(os))
  {
    var c := CommonResolutions();
    assert ValidWeights(c) by {
      assert forall i :: 0 <= i < |c| ==> c[i].1 >= 2.0;
    }
  }

  /** Every GPU offered on a Mac is Apple's; none offered on Windows is. */
  lemma GpuVendors(os: OperatingSystem, i: nat)
    requires i < |GpusFor(os)|
    ensures IsMac(os) ==> GpusFor(os)[i].0.vendor == Apple
    ensures !IsMac(os) ==> GpusFor(os)[i].0.vendor in {Nvidia, Intel, Amd}
  {
  }

  lemma AppleIsNoOtherVendor()
    ensures Apple != Nvidia && Apple != Intel && Apple != Amd
  {
    assert Apple[0] != Intel[0];
    assert |Apple| != |Nvidia| && |Apple| != |Amd|;
  }

  lemma VersionsRange(i: nat)
    requires i < |ChromeVersions()|
    ensures 127 <= ChromeVersions()[i].0 <= 131
  {
  }

  lemma HardwarePositive(i: nat)
    requires i < |HardwareConfigs()|
    ensures HardwareConfigs()[i].0.cpuCores > 0 && HardwareConfigs()[i].0.deviceMemory > 0
  {
  }

  lemma ScreensPositive(os: OperatingSystem, i: nat)
    requires i < |ScreensFor(os)|
    ensures ScreensFor(os)[i].0.width > 0 && ScreensFor(os)[i].0.height > 0
  {
  }

  // ---------------------------------------------------------------------
  // Sampling and assembly
  // ---------------------------------------------------------------------

  /** The index the sampler takes for one raw draw from a table of n entries. */
  function Pick(draw: nat, n: nat): (r: nat)
    requires n > 0
    ensures r < n
  {
    draw % n
  }

  function Choose<T>(t: Table<T>, draw: nat): T
    requires |t| > 0
  {
    t[Pick(draw, |t|)].0
  }

  datatype EnhancedStealthProfile = EnhancedStealthProfile(
    userAgent: string,
    platform: string,
    hardwareConcurrency: nat,
    deviceMemory: nat,
    language: string,
    languages: seq<string>,
    screenWidth: nat,
    screenHeight: nat,
    availWidth: nat,
    availHeight: nat,
    webglVendor: string,
    webglRenderer: string,
    timezone: string,
    latitude: Option<real>,
    longitude: Option<real>,
    colorDepth: nat)

  /** Step 6 of `generate`: the profile put together from the choices. */
  function Assemble(os: OperatingSystem, screen: ScreenResolution, gpu: Gpu, hw: HardwareConfig, version: nat): EnhancedStealthProfile
  {
    EnhancedStealthProfile(
      UserAgent(os, version), Platform(os), hw.cpuCores, hw.deviceMemory,
      "en-US", TypicalLanguages(os),
      screen.width, screen.height, screen.availWidth, screen.availHeight,
      gpu.vendor, gpu.renderer, TypicalTimezone(os), None, None, 24)
  }

  /** The profile for an OS from four successive draws: screen, GPU, hardware, Chrome version. */
  function GenerateFor(os: OperatingSystem, d1: nat, d2: nat, d3: nat, d4: nat): EnhancedStealthProfile
  {
    TablesValid(os);
    Assemble(os, Choose(ScreensFor(os), d1), Choose(GpusFor(os), d2),
      Choose(HardwareConfigs(), d3), Choose(ChromeVersions(), d4))
  }

  /** What every generated profile satisfies for the OS it was generated for. */
  predicate ConsistentFor(os: OperatingSystem, p: EnhancedStealthProfile)
  {
    && p.platform == Platform(os)
    && (exists v :: 127 <= v <= 131 && p.userAgent == UserAgent(os, v))
    && InTable(NewScreen(p.screenWidth, p.screenHeight), ScreensFor(os))
    && p.availWidth == p.screenWidth
    && p.availHeight == NewScreen(p.screenWidth, p.screenHeight).availHeight
    && InTable(Gpu(p.webglVendor, p.webglRenderer), GpusFor(os))
    && InTable(HardwareConfig(p.hardwareConcurrency, p.deviceMemory), HardwareConfigs())
    && p.language == "en-US" && p.languages == ["en-US", "en"]
    && p.colorDepth == 24 && p.latitude.None? && p.longitude.None?
    && p.timezone == TypicalTimezone(os)
  }

  /** Whatever the draws, the generated profile is consistent with its OS. */
  lemma GenerateForConsistent(os: OperatingSystem, d1: nat, d2: nat, d3: nat, d4: nat)
    ensures ConsistentFor(os, GenerateFor(os, d1, d2, d3, d4))
  {
    TablesValid(os);
    var p := GenerateFor(os, d1, d2, d3, d4);
    var i1 := Pick(d1, |ScreensFor(os)|);
    var i2 := Pick(d2, |GpusFor(os)|);
    var i3 := Pick(d3, |HardwareConfigs()|);
    var i4 := Pick(d4, |ChromeVersions()|);
    var s := ScreensFor(os)[i1].0;
    assert s == NewScreen(s.width, s.height) by {
      ScreenShape(os, i1);
    }
    VersionsRange(i4);
    assert p.userAgent == UserAgent(os, ChromeVersions()[i4].0);
  }

  lemma ScreenShape(os: OperatingSystem, i: nat)
    requires i < |ScreensFor(os)|
    ensures ScreensFor(os)[i].0 == NewScreen(ScreensFor(os)[i].0.width, ScreensFor(os)[i].0.height)
  {
  }

  /** A consistent Mac profile has Apple's WebGL vendor; a Windows or Linux one never has. */
  lemma VendorMatchesOs(os: OperatingSystem, p: EnhancedStealthProfile)
    requires ConsistentFor(os, p)
    ensures IsMac(os) ==> p.webglVendor == Apple && Text.StartsWith(p.webglVendor, "Apple")
    ensures !IsMac(os) ==> p.webglVendor != Apple
  {
    var i :| 0 <= i < |GpusFor(os)| && GpusFor(os)[i].0 == Gpu(p.webglVendor, p.webglRenderer);
    GpuVendors(os, i);
    AppleIsNoOtherVendor();
  }

  /** The source's own checks on a generated profile: every field set and positive. */
  lemma ConsistentFieldsSet(os: OperatingSystem, p: EnhancedStealthProfile)
    requires ConsistentFor(os, p)
    ensures p.hardwareConcurrency > 0 && p.deviceMemory > 0
    ensures p.screenWidth > 0 && p.screenHeight > 0
    ensures |p.platform| > 0 && |p.webglVendor| > 0
    ensures Text.Contains(p.userAgent, OsWord(os))
  {
    var i :| 0 <= i < |GpusFor(os)| && GpusFor(os)[i].0 == Gpu(p.webglVendor, p.webglRenderer);
    GpuVendors(os, i);
    var j :| 0 <= j < |HardwareConfigs()| && HardwareConfigs()[j].0 == HardwareConfig(p.hardwareConcurrency, p.deviceMemory);
    HardwarePositive(j);
    var k :| 0 <= k < |ScreensFor(os)| && ScreensFor(os)[k].0 == NewScreen(p.screenWidth, p.screenHeight);
    ScreensPositive(os, k);
    var v :| 127 <= v <= 131 && p.userAgent == UserAgent(os, v);
    UserAgentMentions(os, v);
  }

  /**
   * `FingerprintGenerator`: the RNG (thread-local or seeded) is the stream of
   * draws, and pos counts the draws taken so far.
   */
  class FingerprintGenerator {
    var draws: nat -> nat
    var pos: nat

    /** `FingerprintGenerator::new` and `with_seed`, given the stream their RNG produces. */
    constructor (draws: nat -> nat)
      ensures this.draws == draws && pos == 0
    {
      this.draws := draws;
      pos := 0;
    }

    /** `weighted_choice`: one draw picks one entry of the table. */
    method WeightedChoice<T>(choices: Table<T>) returns (r: T)
      requires ValidWeights(choices)
      modifies this
      ensures draws == old(draws) && pos == old(pos) + 1
      ensures r == Choose(choices, old(draws(pos)))
    {
      var idx := Pick(draws(pos), |choices|);
      pos := pos + 1;
      r := choices[idx].0;
    }

    /** `generate`: the OS, then the screen, GPU, hardware and Chrome version for it. */
    method Generate() returns (p: EnhancedStealthProfile, os: OperatingSystem)
      modifies this
      ensures draws == old(draws) && pos == old(pos) + 5
      ensures os == Choose(OsShares(), draws(old(pos)))
      ensures p == GenerateFor(os, draws(old(pos) + 1), draws(old(pos) + 2), draws(old(pos) + 3), draws(old(pos) + 4))
    {
      TablesValid(Windows);
      os := WeightedChoice(OsShares());
      TablesValid(os);
      var screen := WeightedChoice(ScreensFor(os));
      var gpu := WeightedChoice(GpusFor(os));
      var hardware := WeightedChoice(HardwareConfigs());
      var version := WeightedChoice(ChromeVersions());
      p := Assemble(os, screen, gpu, hardware, version);
    }
  }

  /** `generate_with_os`: a fresh generator over the given draws, with the OS fixed. */
  method GenerateWithOs(os: OperatingSystem, draws: nat -> nat) returns (p: EnhancedStealthProfile)
    ensures p == GenerateFor(os, draws(0), draws(1), draws(2), draws(3))
  {
    var gen := new FingerprintGenerator(draws);
    TablesValid(os);
    var screen := gen.WeightedChoice(ScreensFor(os));
    assert screen == Choose(ScreensFor(os), draws(0));
    var gpu := gen.WeightedChoice(GpusFor(os));
    assert gpu == Choose(GpusFor(os), draws(1));
    var hardware := gen.WeightedChoice(HardwareConfigs());
    assert hardware == Choose(HardwareConfigs(), draws(2));
    var version := gen.WeightedChoice(ChromeVersions());
    assert version == Choose(ChromeVersions(), draws(3));
    p := Assemble(os, screen, gpu, hardware, version);
  }

  /** Equal streams at equal positions give equal profiles, the reproducibility a seed promises. */
  lemma SameDrawsSameProfile(os: OperatingSystem, a: nat -> nat, b: nat -> nat, pos: nat)
    requires forall k :: pos <= k < pos + 4 ==> a(k) == b(k)
    ensures GenerateFor(os, a(pos), a(pos + 1), a(pos + 2), a(pos + 3))
         == GenerateFor(os, b(pos), b(pos + 1), b(pos + 2), b(pos + 3))
  {
    assert a(pos + 1) == b(pos + 1) && a(pos + 2) == b(pos + 2) && a(pos + 3) == b(pos + 3);
  }
}
