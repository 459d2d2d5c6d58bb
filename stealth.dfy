/**
 * Stealth profiles chosen on the command line: the OS and GPU alias parsers
 * and the profile they adjust.
 */
module Stealth {
  import opened Wrappers
  import Text

  datatype StealthOs = Windows | MacOsIntel | MacOsArm | Linux

  datatype StealthGpu =
    | NvidiaRtx4080 | NvidiaRtx3080 | NvidiaGtx1660
    | AmdRadeonRx6800
    | IntelUhd630 | IntelIrisXe
    | AppleM1Pro | AppleM2Max | AppleM4Max

  datatype StealthProfile = StealthProfile(
    os: StealthOs,
    gpu: StealthGpu,
    chromeVersion: nat,
    memoryGb: nat,
    cpuCores: nat,
    locale: string,
    timezone: string)

  /** `StealthProfile::default`. */
  function DefaultStealthProfile(): (r: StealthProfile)
    ensures r.os == MacOsArm && r.gpu == AppleM4Max
    ensures r.chromeVersion == 130 && r.memoryGb == 16 && r.cpuCores == 8
    ensures r.locale == "en-US" && r.timezone == "America/Los_Angeles"
  {
    StealthProfile(MacOsArm, AppleM4Max, 130, 16, 8, "en-US", "America/Los_Angeles")
  }

  // ---------------------------------------------------------------------
  // Operating systems
  // ---------------------------------------------------------------------

  /** The `match` arms of `parse_stealth_os`, on the already lower-cased text. */
  function OsFromAlias(a: string): Option<StealthOs>
  {
    if a == "windows" || a == "win" then Some(Windows)
    else if a == "macos-intel" || a == "mac-intel" || a == "osx-intel" then Some(MacOsIntel)
    else if a == "macos-arm" || a == "mac-arm" || a == "osx-arm" || a == "macos" || a == "mac" then Some(MacOsArm)
    else if a == "linux" then Some(Linux)
    else None
  }

  /** The aliases each OS is known by, as a table. */
  function OsAliases(o: StealthOs): seq<string>
  {
    match o
    case Windows => ["windows", "win"]
    case MacOsIntel => ["macos-intel", "mac-intel", "osx-intel"]
    case MacOsArm => ["macos-arm", "mac-arm", "osx-arm", "macos", "mac"]
    case Linux => ["linux"]
  }

  /** `parse_stealth_os`: the lower-cased text looked up among the aliases. */
  function ParseStealthOs(s: string): Option<StealthOs>
  {
    OsFromAlias(Text.Lower(s))
  }

  /** A lower-case text names an OS exactly when it is one of the table's aliases for it. */
  lemma OsFromAliasTable(a: string, o: StealthOs)
    ensures OsFromAlias(a) == Some(o) <==> a in OsAliases(o)
  {
    match o
    case Windows =>
    case MacOsIntel =>
    case MacOsArm =>
    case Linux =>
  }

  /** Parsing depends only on the lower-cased text. */
  lemma ParseOsIgnoresCase(s: string)
    ensures ParseStealthOs(s) == ParseStealthOs(Text.Lower(s))
  {
    Text.LowerIdempotent(s);
  }

  /** A text parses to an OS exactly when its lower-case form is one of that OS's aliases. */
  lemma ParseOsExact(s: string, o: StealthOs)
    ensures ParseStealthOs(s) == Some(o) <==> Text.Lower(s) in OsAliases(o)
  {
    OsFromAliasTable(Text.Lower(s), o);
  }

  /** A text that is no alias in any case gives None. */
  lemma ParseOsUnknown(s: string)
    requires forall o :: Text.Lower(s) !in OsAliases(o)
    ensures ParseStealthOs(s) == None
  {
    forall o: StealthOs
      ensures OsFromAlias(Text.Lower(s)) != Some(o)
    {
      OsFromAliasTable(Text.Lower(s), o);
    }
  }

  // ---------------------------------------------------------------------
  // GPUs
  // ---------------------------------------------------------------------

  predicate IsSeparator(c: char)
  {
    c == '-' || c == '_' || c == ' '
  }

  /** `replace(['-', '_', ' '], "")`: every separator character is dropped. */
  function StripSeparators(s: string): (r: string)
    ensures |r| <= |s|
    ensures forall i :: 0 <= i < |r| ==> !IsSeparator(r[i])
  {
    if s == [] then []
    else if IsSeparator(s[0]) then StripSeparators(s[1..])
    else [s[0]] + StripSeparators(s[1..])
  }

  lemma {:induction false} StripAppend(a: string, b: string)
    ensures StripSeparators(a + b) == StripSeparators(a) + StripSeparators(b)
  {
    if a == [] {
      assert a + b == b;
    } else {
      assert (a + b)[0] == a[0];
      assert (a + b)[1..] == a[1..] + b;
      StripAppend(a[1..], b);
      if !IsSeparator(a[0]) {
        assert StripSeparators(a + b) == [a[0]] + (StripSeparators(a[1..]) + StripSeparators(b));
      }
    }
  }

  /** The text the GPU aliases are matched against. */
  function GpuKey(s: string): string
  {
    StripSeparators(Text.Lower(s))
  }

  /** The `match` arms of `parse_stealth_gpu`, on the normalised text. */
  function GpuFromAlias(a: string): Option<StealthGpu>
  {
    if a == "nvidiartx4080" || a == "rtx4080" || a == "4080" then Some(NvidiaRtx4080)
    else if a == "nvidiartx3080" || a == "rtx3080" || a == "3080" then Some(NvidiaRtx3080)
    else if a == "nvidiagtx1660" || a == "gtx1660" || a == "1660" then Some(NvidiaGtx1660)
    else if a == "amdradeonrx6800" || a == "rx6800" || a == "6800" then Some(AmdRadeonRx6800)
    else if a == "inteluhd630" || a == "uhd630" then Some(IntelUhd630)
    else if a == "intelirisxe" || a == "irisxe" then Some(IntelIrisXe)
    else if a == "applem1pro" || a == "m1pro" || a == "m1" then Some(AppleM1Pro)
    else if a == "applem2max" || a == "m2max" || a == "m2" then Some(AppleM2Max)
    else if a == "applem4max" || a == "m4max" || a == "m4" then Some(AppleM4Max)
    else None
  }

  /** The aliases each GPU is known by, as a table. */
  function GpuAliases(g: StealthGpu): seq<string>
  {
    match g
    case NvidiaRtx4080 => ["nvidiartx4080", "rtx4080", "4080"]
    case NvidiaRtx3080 => ["nvidiartx3080", "rtx3080", "3080"]
    case NvidiaGtx1660 => ["nvidiagtx1660", "gtx1660", "1660"]
    case AmdRadeonRx6800 => ["amdradeonrx6800", "rx6800", "6800"]
    case IntelUhd630 => ["inteluhd630", "uhd630"]
    case IntelIrisXe => ["intelirisxe", "irisxe"]
    case AppleM1Pro => ["applem1pro", "m1pro", "m1"]
    case AppleM2Max => ["applem2max", "m2max", "m2"]
    case AppleM4Max => ["applem4max", "m4max", "m4"]
  }

  /** `parse_stealth_gpu`. */
  function ParseStealthGpu(s: string): Option<StealthGpu>
  {
    GpuFromAlias(GpuKey(s))
  }

  lemma NvidiaAliasParses(a: string, g: StealthGpu)
    requires g == NvidiaRtx4080 || g == NvidiaRtx3080 || g == NvidiaGtx1660
    requires a in GpuAliases(g)
    ensures GpuFromAlias(a) == Some(g)
  {
  }

  lemma AmdIntelAliasParses(a: string, g: StealthGpu)
    requires g == AmdRadeonRx6800 || g == IntelUhd630 || g == IntelIrisXe
    requires a in GpuAliases(g)
    ensures GpuFromAlias(a) == Some(g)
  {
  }

  lemma AppleM1AliasParses(a: string)
    requires a in GpuAliases(AppleM1Pro)
    ensures GpuFromAlias(a) == Some(AppleM1Pro)
  {
  }

  lemma AppleM2AliasParses(a: string)
    requires a in GpuAliases(AppleM2Max)
    ensures GpuFromAlias(a) == Some(AppleM2Max)
  {
  }

  lemma AppleM4AliasParses(a: string)
    requires a in GpuAliases(AppleM4Max)
    ensures GpuFromAlias(a) == Some(AppleM4Max)
  {
  }

  /** Every alias in the table reaches its GPU ... */
  lemma GpuAliasParses(a: string, g: StealthGpu)
    requires a in GpuAliases(g)
    ensures GpuFromAlias(a) == Some(g)
  {
    if g == NvidiaRtx4080 || g == NvidiaRtx3080 || g == NvidiaGtx1660 {
      NvidiaAliasParses(a, g);
    } else if g == AmdRadeonRx6800 || g == IntelUhd630 || g == IntelIrisXe {
      AmdIntelAliasParses(a, g);
    } else if g == AppleM1Pro {
      AppleM1AliasParses(a);
    } else if g == AppleM2Max {
      AppleM2AliasParses(a);
    } else {
      AppleM4AliasParses(a);
    }
  }

  /** ... and only the table's aliases reach it. */
  lemma GpuParsedIsAlias(a: string, g: StealthGpu)
    requires GpuFromAlias(a) == Some(g)
    ensures a in GpuAliases(g)
  {
    if a == "nvidiartx4080" || a == "rtx4080" || a == "4080" {
    } else if a == "nvidiartx3080" || a == "rtx3080" || a == "3080" {
    } else if a == "nvidiagtx1660" || a == "gtx1660" || a == "1660" {
    } else if a == "amdradeonrx6800" || a == "rx6800" || a == "6800" {
    } else if a == "inteluhd630" || a == "uhd630" {
    } else if a == "intelirisxe" || a == "irisxe" {
    } else if a == "applem1pro" || a == "m1pro" || a == "m1" {
    } else if a == "applem2max" || a == "m2max" || a == "m2" {
    }
  }

  lemma GpuFromAliasTable(a: string, g: StealthGpu)
    ensures GpuFromAlias(a) == Some(g) <==> a in GpuAliases(g)
  {
    if a in GpuAliases(g) {
      GpuAliasParses(a, g);
    }
    if GpuFromAlias(a) == Some(g) {
      GpuParsedIsAlias(a, g);
    }
  }

  /** A text parses to a GPU exactly when its normalised form is one of that GPU's aliases. */
  lemma ParseGpuExact(s: string, g: StealthGpu)
    ensures ParseStealthGpu(s) == Some(g) <==> GpuKey(s) in GpuAliases(g)
  {
    GpuFromAliasTable(GpuKey(s), g);
  }

  lemma {:induction false} StripLower(s: string)
    ensures StripSeparators(Text.Lower(StripSeparators(s))) == StripSeparators(Text.Lower(s))
  {
    if s != [] {
      var l := Text.Lower(s);
      assert l[0] == Text.LowerChar(s[0]);
      assert l == [l[0]] + l[1..];
      assert l[1..] == Text.Lower(s[1..]);
      StripLower(s[1..]);
      if !IsSeparator(s[0]) {
        var t := StripSeparators(s);
        assert t == [s[0]] + StripSeparators(s[1..]);
        Text.LowerAppend([s[0]], StripSeparators(s[1..]));
        var lt := Text.Lower(t);
        StripAppend([Text.LowerChar(s[0])], Text.Lower(StripSeparators(s[1..])));
        StripAppend([l[0]], l[1..]);
      }
    }
  }

  /** Parsing ignores case ... */
  lemma ParseGpuIgnoresCase(s: string)
    ensures ParseStealthGpu(s) == ParseStealthGpu(Text.Lower(s))
  {
    Text.LowerIdempotent(s);
  }

  /** ... and every separator: removing one anywhere changes nothing. */
  lemma KeyAppend(a: string, b: string)
    ensures GpuKey(a + b) == GpuKey(a) + GpuKey(b)
  {
    Text.LowerAppend(a, b);
    StripAppend(Text.Lower(a), Text.Lower(b));
  }

  lemma ParseGpuIgnoresSeparator(a: string, c: char, b: string)
    requires IsSeparator(c)
    ensures ParseStealthGpu(a + [c] + b) == ParseStealthGpu(a + b)
  {
    KeyAppend(a + [c], b);
    KeyAppend(a, [c]);
    KeyAppend(a, b);
    assert Text.Lower([c]) == [c];
    assert GpuKey([c]) == [];
    assert GpuKey(a + [c] + b) == GpuKey(a + b);
  }

  /** ... so all separators may be dropped beforehand. */
  lemma ParseGpuIgnoresSeparators(s: string)
    ensures ParseStealthGpu(StripSeparators(s)) == ParseStealthGpu(s)
  {
    StripLower(s);
  }

  // ---------------------------------------------------------------------
  // Building the profile
  // ---------------------------------------------------------------------

  /** `build_stealth_profile`: the default with os and gpu replaced when, and only when, they parse. */
  function BuildStealthProfile(os: Option<string>, gpu: Option<string>): (r: StealthProfile)
    ensures r.(os := MacOsArm, gpu := AppleM4Max) == DefaultStealthProfile()
    ensures os.Some? && ParseStealthOs(os.value).Some? ==> r.os == ParseStealthOs(os.value).value
    ensures os.None? || ParseStealthOs(os.value).None? ==> r.os == MacOsArm
    ensures gpu.Some? && ParseStealthGpu(gpu.value).Some? ==> r.gpu == ParseStealthGpu(gpu.value).value
    ensures gpu.None? || ParseStealthGpu(gpu.value).None? ==> r.gpu == AppleM4Max
  {
    var p := DefaultStealthProfile();
    var p1 := if os.Some? && ParseStealthOs(os.value).Some? then p.(os := ParseStealthOs(os.value).value) else p;
    if gpu.Some? && ParseStealthGpu(gpu.value).Some? then p1.(gpu := ParseStealthGpu(gpu.value).value) else p1
  }
}
