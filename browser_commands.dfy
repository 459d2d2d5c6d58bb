/**
 * The pure helpers of the `browser` command: URL normalisation before
 * navigation, recognition of a reusable blank start page, the effective
 * profile name, the cookie URL, the WebSocket branch of CDP endpoint
 * resolution, the auto-attach retry of extension commands, and the text
 * rendering of a snapshot tree.
 */
module BrowserCommands {
  import opened Wrappers
  import opened Text
  import opened Json
  import opened ExtensionBackend
  import Config

  // ---------------------------------------------------------------------------
  // URL normalisation
  // ---------------------------------------------------------------------------

  /** A character allowed in a URL scheme after the first letter. */
  predicate SchemeChar(c: char)
  {
    IsAsciiAlnum(c) || c == '+' || c == '-' || c == '.'
  }

  /** Scheme characters up to a ':' that ends them. */
  predicate SchemeTail(t: string)
    decreases |t|
  {
    t != [] && (t[0] == ':' || (SchemeChar(t[0]) && SchemeTail(t[1..])))
  }

  /** A letter, scheme characters, then ':'. */
  predicate ExplicitScheme(s: string)
  {
    |s| > 0 && IsAsciiAlpha(s[0]) && SchemeTail(s[1..])
  }

  lemma {:induction false} SchemeTailIff(t: string)
    ensures SchemeTail(t) <==>
      exists k :: 0 <= k < |t| && t[k] == ':' && forall j :: 0 <= j < k ==> SchemeChar(t[j])
    decreases |t|
  {
    if t != [] && t[0] != ':' {
      SchemeTailIff(t[1..]);
      if SchemeTail(t) {
        var k :| 0 <= k < |t[1..]| && t[1..][k] == ':' && forall j :: 0 <= j < k ==> SchemeChar(t[1..][j]);
        assert t[k + 1] == ':';
        assert forall j :: 0 <= j < k + 1 ==> SchemeChar(t[j]) by {
          forall j | 0 <= j < k + 1
            ensures SchemeChar(t[j])
          {
            if j > 0 { assert t[j] == t[1..][j - 1]; }
          }
        }
      }
      if exists k :: 0 <= k < |t| && t[k] == ':' && forall j :: 0 <= j < k ==> SchemeChar(t[j]) {
        var k :| 0 <= k < |t| && t[k] == ':' && forall j :: 0 <= j < k ==> SchemeChar(t[j]);
        assert k > 0;
        assert t[1..][k - 1] == ':';
        assert forall j :: 0 <= j < k - 1 ==> SchemeChar(t[1..][j]) by {
          forall j | 0 <= j < k - 1
            ensures SchemeChar(t[1..][j])
          {
            assert t[1..][j] == t[j + 1];
          }
        }
      }
    }
  }

  /** The scheme test in closed form: a letter, then scheme characters, then a ':'. */
  lemma ExplicitSchemeIff(s: string)
    ensures ExplicitScheme(s) <==> (|s| > 0 && IsAsciiAlpha(s[0]) &&
      exists k :: 1 <= k < |s| && s[k] == ':' && forall j :: 1 <= j < k ==> SchemeChar(s[j]))
  {
    if |s| > 0 {
      SchemeTailIff(s[1..]);
      if exists k :: 0 <= k < |s[1..]| && s[1..][k] == ':' && forall j :: 0 <= j < k ==> SchemeChar(s[1..][j]) {
        var k :| 0 <= k < |s[1..]| && s[1..][k] == ':' && forall j :: 0 <= j < k ==> SchemeChar(s[1..][j]);
        assert s[k + 1] == ':';
        assert forall j :: 1 <= j < k + 1 ==> SchemeChar(s[j]) by {
          forall j | 1 <= j < k + 1
            ensures SchemeChar(s[j])
          {
            assert s[j] == s[1..][j - 1];
          }
        }
      }
      if exists k :: 1 <= k < |s| && s[k] == ':' && forall j :: 1 <= j < k ==> SchemeChar(s[j]) {
        var k :| 1 <= k < |s| && s[k] == ':' && forall j :: 1 <= j < k ==> SchemeChar(s[j]);
        assert s[1..][k - 1] == ':';
        assert forall j :: 0 <= j < k - 1 ==> SchemeChar(s[1..][j]) by {
          forall j | 0 <= j < k - 1
            ensures SchemeChar(s[1..][j])
          {
            assert s[1..][j] == s[j + 1];
          }
        }
      }
    }
  }

  /** `has_explicit_scheme`: a scan of the characters with early returns. */
  method HasExplicitScheme(input: string) returns (r: bool)
    ensures r == ExplicitScheme(input)
  {
    if |input| == 0 || !IsAsciiAlpha(input[0]) {
      return false;
    }
    var i := 1;
    while i < |input|
      invariant 1 <= i <= |input|
      invariant SchemeTail(input[1..]) == SchemeTail(input[i..])
    {
      var c := input[i];
      assert input[i..][0] == c && input[i..][1..] == input[i + 1..];
      if c == ':' {
        return true;
      }
      if !SchemeChar(c) {
        return false;
      }
      i := i + 1;
    }
    return false;
  }

  /** `str::find` for any character of a set. */
  function FindAny(s: string, cs: set<char>): (r: Option<nat>)
    ensures r.Some? ==> r.value < |s| && s[r.value] in cs && forall k :: 0 <= k < r.value ==> s[k] !in cs
    ensures r.None? ==> forall k :: 0 <= k < |s| ==> s[k] !in cs
  {
    if s == [] then None
    else if s[0] in cs then Some(0)
    else match FindAny(s[1..], cs)
      case None => None
      case Some(k) => Some(k + 1)
  }

  /** The text before the first '/', '?' or '#'. */
  function Authority(input: string): (a: string)
    ensures |a| <= |input| && a == input[..|a|]
    ensures forall k :: 0 <= k < |a| ==> a[k] !in {'/', '?', '#'}
    ensures |a| < |input| ==> input[|a|] in {'/', '?', '#'}
  {
    input[..FindAny(input, {'/', '?', '#'}).UnwrapOr(|input|)]
  }

  /**
   * `is_host_port_with_optional_path`: split the authority at its last ':';
   * the host must be non-empty and the port a non-empty run of digits.
   */
  predicate IsHostPortWithOptionalPath(input: string)
  {
    var a := Authority(input);
    a != [] && match RFindChar(a, ':')
      case None => false
      case Some(k) => k > 0 && k + 1 < |a| && AllDigits(a[k + 1..])
  }

  /** The host:port test in closed form: some ':' with a non-empty host before and only digits after. */
  lemma HostPortIff(input: string)
    ensures IsHostPortWithOptionalPath(input) <==>
      var a := Authority(input);
      exists k :: 0 < k < |a| - 1 && a[k] == ':' && AllDigits(a[k + 1..])
  {
    var a := Authority(input);
    if exists k :: 0 < k < |a| - 1 && a[k] == ':' && AllDigits(a[k + 1..]) {
      var k :| 0 < k < |a| - 1 && a[k] == ':' && AllDigits(a[k + 1..]);
      var last := RFindChar(a, ':');
      assert last.Some?;
    }
  }

  const EmptyUrlError := "Invalid URL: empty input"

  /**
   * `normalize_navigation_url`: trim; reject empty input; turn "//x" into
   * "https://x"; keep input that has "://"; give host:port input https;
   * keep input with an explicit scheme; give everything else https.
   */
  function NormalizeNavigationUrl(raw: string): (r: Result<string, string>)
  {
    var t := Trim(raw);
    if t == [] then Err(EmptyUrlError) else Ok(WithScheme(t))
  }

  /** The choice made for trimmed, non-empty input. */
  function WithScheme(t: string): string
  {
    if StartsWith(t, "//") then "https://" + t[2..]
    else if Contains(t, "://") then t
    else if IsHostPortWithOptionalPath(t) then "https://" + t
    else if ExplicitScheme(t) then t
    else "https://" + t
  }

  lemma TrimAllWhitespace(s: string)
    ensures Trim(s) == [] <==> forall i :: 0 <= i < |s| ==> IsWhitespace(s[i])
  {
    var a := TrimStart(s);
  }

  /** An https-prefixed result is trimmed and contains "://". */
  lemma HttpsForm(x: string)
    requires x == [] || !IsWhitespace(x[|x| - 1])
    ensures IsTrimmed("https://" + x)
    ensures Contains("https://" + x, "://")
    ensures !StartsWith("https://" + x, "//")
  {
    var o := "https://" + x;
    assert o[5..8] == "://";
    ContainsAt(o, "://", 5);
    if x != [] {
      assert o[|o| - 1] == x[|x| - 1];
    }
  }

  /** Only blank input is refused, with the empty-input message. */
  lemma NormalizeRejectsOnlyBlank(raw: string)
    ensures NormalizeNavigationUrl(raw).Err? <==> forall i :: 0 <= i < |raw| ==> IsWhitespace(raw[i])
    ensures NormalizeNavigationUrl(raw).Err? ==> NormalizeNavigationUrl(raw).error == EmptyUrlError
  {
    TrimAllWhitespace(raw);
  }

  /** The https forms: trimmed, with "://", and chosen again unchanged. */
  lemma WithSchemeHttps(x: string)
    requires x == [] || !IsWhitespace(x[|x| - 1])
    ensures IsTrimmed("https://" + x) && Contains("https://" + x, "://")
    ensures WithScheme("https://" + x) == "https://" + x
  {
    HttpsForm(x);
  }

  /**
   * For trimmed non-empty input the result has no surrounding whitespace,
   * carries a scheme ("://" or an explicit "scheme:"), and is its own choice.
   */
  lemma WithSchemeProperties(t: string)
    requires t != [] && IsTrimmed(t)
    ensures IsTrimmed(WithScheme(t))
    ensures Contains(WithScheme(t), "://") || ExplicitScheme(WithScheme(t))
    ensures WithScheme(WithScheme(t)) == WithScheme(t)
  {
    if StartsWith(t, "//") {
      var x := t[2..];
      assert x == [] || x[|x| - 1] == t[|t| - 1];
      WithSchemeHttps(x);
    } else if Contains(t, "://") {
    } else if IsHostPortWithOptionalPath(t) {
      WithSchemeHttps(t);
    } else if ExplicitScheme(t) {
    } else {
      WithSchemeHttps(t);
    }
  }

  /** Every result has no surrounding whitespace, carries a scheme, and normalises to itself. */
  lemma NormalizeProperties(raw: string)
    requires NormalizeNavigationUrl(raw).Ok?
    ensures IsTrimmed(NormalizeNavigationUrl(raw).value)
    ensures Contains(NormalizeNavigationUrl(raw).value, "://") || ExplicitScheme(NormalizeNavigationUrl(raw).value)
    ensures NormalizeNavigationUrl(NormalizeNavigationUrl(raw).value) == NormalizeNavigationUrl(raw)
  {
    var t := Trim(raw);
    TrimIsTrimmed(raw);
    WithSchemeProperties(t);
    TrimmedFixed(WithScheme(t));
  }

  /** Without a ':' there is no "://". */
  lemma {:induction false} NoColonNoSeparator(s: string)
    requires ':' !in s
    ensures !Contains(s, "://")
    decreases |s|
  {
    if s != [] {
      assert s[0] != ':';
      NoColonNoSeparator(s[1..]);
    }
  }

  /** Input without any ':' gets https prepended, after trimming. */
  lemma NormalizeWithoutColon(raw: string)
    requires ':' !in Trim(raw) && Trim(raw) != [] && !StartsWith(Trim(raw), "//")
    ensures NormalizeNavigationUrl(raw) == Ok("https://" + Trim(raw))
  {
    var t := Trim(raw);
    NoColonNoSeparator(t);
    NoColonNoHostPort(t);
    NoColonNoScheme(t);
  }

  lemma NoColonNoHostPort(t: string)
    requires ':' !in t
    ensures !IsHostPortWithOptionalPath(t)
  {
    assert Authority(t) == t[..|Authority(t)|];
    assert RFindChar(Authority(t), ':') == None;
  }

  lemma NoColonNoScheme(t: string)
    requires ':' !in t
    ensures !ExplicitScheme(t)
  {
    ExplicitSchemeIff(t);
  }

  /** A "://" starts at some ':' that is followed by '/'. */
  lemma {:induction false} SeparatorAt(s: string)
    requires Contains(s, "://")
    ensures exists k :: 0 <= k < |s| - 1 && s[k] == ':' && s[k + 1] == '/'
    decreases |s|
  {
    if StartsWith(s, "://") {
      assert s[0] == ':' && s[1] == '/';
    } else {
      SeparatorAt(s[1..]);
      var k :| 0 <= k < |s[1..]| - 1 && s[1..][k] == ':' && s[1..][k + 1] == '/';
      assert s[k + 1] == ':' && s[k + 2] == '/';
    }
  }

  /** A string whose every ':' is followed by something other than '/' has no "://". */
  lemma NoSeparator(s: string)
    requires forall k :: 0 <= k < |s| - 1 && s[k] == ':' ==> s[k + 1] != '/'
    ensures !Contains(s, "://")
  {
    if Contains(s, "://") {
      SeparatorAt(s);
    }
  }

  /** Input that already names a "scheme://" is kept as trimmed. */
  lemma NormalizeKeepsSeparatorUrl(raw: string)
    requires Contains(Trim(raw), "://") && !StartsWith(Trim(raw), "//")
    ensures NormalizeNavigationUrl(raw) == Ok(Trim(raw))
  {
  }

  /** Protocol-relative input gets https, as in "//example.com/path". */
  lemma NormalizeProtocolRelative(raw: string)
    requires StartsWith(Trim(raw), "//")
    ensures NormalizeNavigationUrl(raw) == Ok("https://" + Trim(raw)[2..])
  {
  }

  /** Input with a "scheme:" but no "://" and no host:port shape, such as "about:blank" or "mailto:x", is kept. */
  lemma NormalizeKeepsExplicitScheme(raw: string)
    requires ExplicitScheme(Trim(raw)) && !Contains(Trim(raw), "://") && !IsHostPortWithOptionalPath(Trim(raw))
    ensures NormalizeNavigationUrl(raw) == Ok(Trim(raw))
  {
    NotDoubleSlash(Trim(raw));
  }

  lemma NotDoubleSlash(t: string)
    requires t != [] && t[0] != '/'
    ensures !StartsWith(t, "//")
  {
  }

  /** A host without ':', '/', '?' or '#', a ':', and a digit port, such as "localhost:3000", gets https. */
  lemma NormalizeHostPort(host: string, port: string)
    requires host != [] && !IsWhitespace(host[0])
    requires forall i :: 0 <= i < |host| ==> host[i] !in {':', '/', '?', '#'}
    requires port != [] && AllDigits(port)
    ensures NormalizeNavigationUrl(host + ":" + port) == Ok("https://" + (host + ":" + port))
  {
    var t := host + ":" + port;
    assert t != [] && Trim(t) == t && !StartsWith(t, "//") && !Contains(t, "://") && IsHostPortWithOptionalPath(t) by {
      HostPortTrimmed(host, port);
      HostPortNoSeparator(host, port);
      HostPortShape(host, port);
      assert t[0] == host[0];
      NotDoubleSlash(t);
    }
    NormalizeHostPortShape(t);
  }

  lemma NormalizeHostPortShape(t: string)
    requires t != [] && Trim(t) == t && !StartsWith(t, "//") && !Contains(t, "://") && IsHostPortWithOptionalPath(t)
    ensures NormalizeNavigationUrl(t) == Ok("https://" + t)
  {
  }

  lemma HostPortTrimmed(host: string, port: string)
    requires host != [] && !IsWhitespace(host[0])
    requires port != [] && AllDigits(port)
    ensures Trim(host + ":" + port) == host + ":" + port
  {
    var t := host + ":" + port;
    assert t[0] == host[0];
    assert t[|t| - 1] == port[|port| - 1];
    TrimmedFixed(t);
  }

  lemma HostPortNoSeparator(host: string, port: string)
    requires forall i :: 0 <= i < |host| ==> host[i] !in {':', '/', '?', '#'}
    requires port != [] && AllDigits(port)
    ensures !Contains(host + ":" + port, "://")
  {
    var t := host + ":" + port;
    forall k | 0 <= k < |t| - 1 && t[k] == ':'
      ensures t[k + 1] != '/'
    {
      if k == |host| {
        assert t[k + 1] == port[0];
      }
    }
    NoSeparator(t);
  }

  lemma HostPortShape(host: string, port: string)
    requires host != []
    requires forall i :: 0 <= i < |host| ==> host[i] !in {':', '/', '?', '#'}
    requires port != [] && AllDigits(port)
    ensures IsHostPortWithOptionalPath(host + ":" + port)
  {
    var t := host + ":" + port;
    assert forall i :: 0 <= i < |t| ==> t[i] !in {'/', '?', '#'} by {
      forall i | 0 <= i < |t|
        ensures t[i] !in {'/', '?', '#'}
      {
        if i < |host| {
          assert t[i] == host[i];
        } else if i > |host| {
          assert t[i] == port[i - |host| - 1];
        }
      }
    }
    assert Authority(t) == t;
    assert ':' !in port by {
      assert forall i :: 0 <= i < |port| ==> IsAsciiDigit(port[i]);
    }
    RFindCharAppend(host + ":", port, ':');
    assert RFindChar(host + ":", ':') == Some(|host|);
    assert t[|host| + 1..] == port;
  }

  // ---------------------------------------------------------------------------
  // Blank start pages, profile name, cookie URL
  // ---------------------------------------------------------------------------

  const BlankPages: set<string> := {"about:blank", "about:newtab", "chrome://newtab", "chrome://new-tab-page", "edge://newtab"}

  /** The form compared against the table: trimmed, ASCII lower case, trailing '/' removed. */
  function BlankKey(url: string): (k: string)
  {
    TrimEndMatches(Lower(Trim(url)), '/')
  }

  /** `is_reusable_initial_blank_page_url`. */
  predicate IsReusableInitialBlankPageUrl(url: string)
  {
    BlankKey(url) in BlankPages
  }

  /** The test ignores ASCII case and surrounding whitespace. */
  lemma ReusableIgnoresCaseAndSpace(url: string)
    ensures IsReusableInitialBlankPageUrl(Lower(url)) == IsReusableInitialBlankPageUrl(url)
    ensures IsReusableInitialBlankPageUrl(Trim(url)) == IsReusableInitialBlankPageUrl(url)
  {
    TrimLower(url);
    LowerIdempotent(Trim(url));
    TrimIsTrimmed(url);
  }

  /** s is p followed by nothing but '/'. */
  predicate SlashPadded(s: string, p: string)
  {
    |p| <= |s| && s[..|p|] == p && forall k :: |p| <= k < |s| ==> s[k] == '/'
  }

  lemma PagesEndWithoutSlash()
    ensures forall p :: p in BlankPages ==> p != [] && p[|p| - 1] != '/'
  {
    assert "about:blank"[10] == 'k' && "about:newtab"[11] == 'b' && "chrome://newtab"[14] == 'b';
    assert "chrome://new-tab-page"[20] == 'e' && "edge://newtab"[12] == 'b';
  }

  /**
   * A URL is reusable exactly when, trimmed and lower-cased, it is one of
   * the five pages followed by any number of '/' characters.
   */
  lemma ReusableExactly(url: string)
    ensures IsReusableInitialBlankPageUrl(url) <==>
      exists p :: p in BlankPages && SlashPadded(Lower(Trim(url)), p)
  {
    var s := Lower(Trim(url));
    if IsReusableInitialBlankPageUrl(url) {
      assert SlashPadded(s, BlankKey(url));
    }
    forall p | p in BlankPages && SlashPadded(s, p)
      ensures IsReusableInitialBlankPageUrl(url)
    {
      PagesEndWithoutSlash();
      TrimEndMatchesPadding(p, s, '/');
    }
  }

  lemma BlankKeyIgnoresSlashes(t: string, slashes: string)
    requires IsTrimmed(t)
    requires forall k :: 0 <= k < |slashes| ==> slashes[k] == '/'
    ensures BlankKey(t + slashes) == BlankKey(t)
  {
    var u := t + slashes;
    assert IsTrimmed(u) by {
      assert forall k :: 0 <= k < |slashes| ==> !IsWhitespace(slashes[k]);
      TrimmedAppend(t, slashes);
    }
    assert Trim(u) == u by {
      TrimmedFixed(u);
    }
    assert Trim(t) == t by {
      TrimmedFixed(t);
    }
    assert Lower(u) == Lower(t) + slashes by {
      LowerAppend(t, slashes);
      LowerFixed(slashes);
    }
    TrimEndMatchesSuffix(Lower(t), slashes, '/');
  }

  /** Any number of '/' after the trimmed URL leaves the verdict as it was. */
  lemma ReusableIgnoresTrailingSlashes(url: string, slashes: string)
    requires forall k :: 0 <= k < |slashes| ==> slashes[k] == '/'
    ensures IsReusableInitialBlankPageUrl(Trim(url) + slashes) == IsReusableInitialBlankPageUrl(url)
  {
    TrimmedKey(url);
    BlankKeyIgnoresSlashes(Trim(url), slashes);
  }

  lemma TrimmedKey(url: string)
    ensures IsTrimmed(Trim(url)) && BlankKey(Trim(url)) == BlankKey(url)
  {
    TrimIsTrimmed(url);
  }


  /**
   * `effective_profile_name`: the trimmed CLI profile when non-blank, else
   * the trimmed configured default when non-blank, else "actionbook".
   */
  function EffectiveProfileName(cliProfile: Option<string>, defaultProfile: string): (r: string)
    ensures r != [] && IsTrimmed(r)
    ensures cliProfile.Some? && Trim(cliProfile.value) != [] ==> r == Trim(cliProfile.value)
    ensures (cliProfile.None? || Trim(cliProfile.value) == []) && Trim(defaultProfile) != [] ==>
      r == Trim(defaultProfile)
    ensures (cliProfile.None? || Trim(cliProfile.value) == []) && Trim(defaultProfile) == [] ==>
      r == Config.DefaultProfileName
  {
    if cliProfile.Some? && Trim(cliProfile.value) != [] then
      TrimIsTrimmed(cliProfile.value);
      Trim(cliProfile.value)
    else if Trim(defaultProfile) != [] then
      TrimIsTrimmed(defaultProfile);
      Trim(defaultProfile)
    else
      Config.DefaultNamePlain();
      Config.DefaultProfileName
  }

  const NoPageUrlError := "Cannot perform cookie operation: no valid page URL (navigate to an http(s) page first)"

  /**
   * `resolve_cookie_url`: an explicit domain wins, as "https://<domain>/"
   * with its leading dots removed; else the current page URL; else an error.
   */
  function ResolveCookieUrl(currentUrl: string, domain: Option<string>): (r: Result<string, string>)
    ensures r.Err? <==> domain.None? && currentUrl == []
    ensures r.Err? ==> r.error == NoPageUrlError
    ensures domain.Some? ==> (r.Ok? && |r.value| >= 9 && r.value[..8] == "https://" && r.value[|r.value| - 1] == '/'
      && var host := r.value[8..|r.value| - 1];
      (host == [] || host[0] != '.') && EndsWith(domain.value, host)
      && forall k :: 0 <= k < |domain.value| - |host| ==> domain.value[k] == '.')
    ensures domain.None? && currentUrl != [] ==> r == Ok(currentUrl)
  {
    if domain.Some? then
      var clean := TrimStartMatches(domain.value, '.');
      var u := "https://" + clean + "/";
      assert u[8..|u| - 1] == clean;
      Ok(u)
    else if currentUrl != [] then Ok(currentUrl)
    else Err(NoPageUrlError)
  }

  // ---------------------------------------------------------------------------
  // CDP endpoint, WebSocket branch
  // ---------------------------------------------------------------------------

  /** `s.split(sep).nth(1)`: the text between the first and the second separator. */
  function SecondPiece(s: string, sep: string): (r: Option<string>)
    requires |sep| > 0
    ensures r.None? <==> !Contains(s, sep)
  {
    match IndexOf(s, sep)
    case None => None
    case Some(i) =>
      var rest := s[i + |sep|..];
      match IndexOf(rest, sep)
      case None => Some(rest)
      case Some(k) => Some(rest[..k])
  }

  /** `s.split(c).next()`: the text before the first c. */
  function BeforeFirst(s: string, c: char): (r: string)
    ensures |r| <= |s| && c !in r && r == s[..|r|]
  {
    match FindChar(s, c)
    case None => s
    case Some(k) => s[..k]
  }

  /** `s.rsplit(c).next()`: the text after the last c. */
  function AfterLast(s: string, c: char): (r: string)
    ensures |r| <= |s| && c !in r && r == s[|s| - |r|..]
  {
    match RFindChar(s, c)
    case None => s
    case Some(k) => s[k + 1..]
  }

  /** The port of a ws:// or wss:// endpoint: after the last ':' of the host part, else 9222. */
  function WsPort(endpoint: string): (port: nat)
    ensures port <= U16_MAX
  {
    match SecondPiece(endpoint, "://")
    case None => 9222
    case Some(piece) => ParseUnsigned(AfterLast(BeforeFirst(piece, '/'), ':'), U16_MAX).UnwrapOr(9222)
  }

  datatype CdpEndpoint =
    | WebSocketUrl(port: nat, url: string)
    | DebugPort(port: nat)

  const BadEndpointMessage := "Invalid endpoint. Use a port number or WebSocket URL (ws://...)."

  /**
   * `resolve_cdp_endpoint` without its HTTP query: a WebSocket URL keeps
   * itself and gets its port; a u16 number is a debugging port whose
   * WebSocket URL the browser is then asked for; anything else is an error.
   */
  function ResolveCdpEndpoint(endpoint: string): (r: Result<CdpEndpoint, string>)
    ensures (StartsWith(endpoint, "ws://") || StartsWith(endpoint, "wss://")) ==>
      r == Ok(WebSocketUrl(WsPort(endpoint), endpoint))
    ensures !(StartsWith(endpoint, "ws://") || StartsWith(endpoint, "wss://")) ==>
      (r.Err? <==> ParseUnsigned(endpoint, U16_MAX).None?)
    ensures r.Ok? && r.value.DebugPort? ==> r.value.port == ParseUnsigned(endpoint, U16_MAX).value
    ensures r.Err? ==> r.error == BadEndpointMessage
  {
    if StartsWith(endpoint, "ws://") || StartsWith(endpoint, "wss://") then
      Ok(WebSocketUrl(WsPort(endpoint), endpoint))
    else match ParseUnsigned(endpoint, U16_MAX)
      case Some(p) => Ok(DebugPort(p))
      case None => Err(BadEndpointMessage)
  }

  /** After a scheme without ':', the second "://"-separated piece is the rest when the rest has no "://". */
  lemma WsSecondPiece(scheme: string, rest: string)
    requires ':' !in scheme && !Contains(rest, "://")
    ensures SecondPiece(scheme + "://" + rest, "://") == Some(rest)
  {
    var e := scheme + "://" + rest;
    var n := |scheme|;
    assert e[n..n + 3] == "://";
    forall k | 0 <= k < n
      ensures !StartsWith(e[k..], "://")
    {
      assert e[k..][0] == scheme[k];
    }
    IndexOfAt(e, "://", n);
    assert e[n + 3..] == rest;
  }

  lemma BeforeFirstSlash(auth: string, path: string)
    requires '/' !in auth && (path == [] || path[0] == '/')
    ensures BeforeFirst(auth + path, '/') == auth
  {
    FindCharAppend(auth, path, '/');
  }

  lemma AfterLastColon(host: string, port: string)
    requires ':' !in port
    ensures AfterLast(host + ":" + port, ':') == port
  {
    RFindCharAppend(host + ":", port, ':');
    assert RFindChar(host + ":", ':') == Some(|host|);
    assert (host + ":" + port)[|host| + 1..] == port;
  }

  lemma DigitsHaveNoSeparators(port: string)
    requires AllDigits(port)
    ensures ':' !in port && '/' !in port
  {
    assert forall i :: 0 <= i < |port| ==> IsAsciiDigit(port[i]);
  }

  /**
   * For scheme + "://" + host + ":" + port + path, with a host free of ':'
   * and '/', a digit port that fits in 16 bits and a path that is empty or
   * starts with '/', the port is the one written between the last ':' and
   * the path.
   */
  lemma WsPortOfAuthority(scheme: string, host: string, port: string, path: string)
    requires scheme == "ws" || scheme == "wss"
    requires ':' !in host && '/' !in host
    requires |port| > 0 && AllDigits(port) && DigitsValue(port) <= U16_MAX
    requires path == [] || path[0] == '/'
    requires !Contains(host + ":" + port + path, "://")
    ensures WsPort(scheme + "://" + (host + ":" + port + path)) == DigitsValue(port)
  {
    var auth := host + ":" + port;
    WsSecondPiece(scheme, auth + path);
    DigitsHaveNoSeparators(port);
    assert '/' !in auth;
    BeforeFirstSlash(auth, path);
    AfterLastColon(host, port);
    WsPortFromPieces(scheme + "://" + (auth + path), auth + path, auth, port);
  }

  lemma WsPortFromPieces(endpoint: string, piece: string, auth: string, port: string)
    requires SecondPiece(endpoint, "://") == Some(piece)
    requires BeforeFirst(piece, '/') == auth && AfterLast(auth, ':') == port
    requires |port| > 0 && AllDigits(port) && DigitsValue(port) <= U16_MAX
    ensures WsPort(endpoint) == DigitsValue(port)
  {
    assert !(|port| > 0 && port[0] == '+');
  }

  // ---------------------------------------------------------------------------
  // Snapshot tree rendering
  // ---------------------------------------------------------------------------

  function Role(node: Json): string
  {
    AsStr(Get(node, "role")).UnwrapOr("generic")
  }

  /** The index of a "children" field holding an array, if any. */
  function KidsIndex(node: Json): (r: Option<nat>)
    ensures r.Some? ==> node.JObj? && r.value < |node.fields| && node.fields[r.value].1.JArr?
    ensures r.Some? ==> AsArray(Get(node, "children")) == Some(node.fields[r.value].1.items)
    ensures r.None? ==> AsArray(Get(node, "children")).None?
  {
    if node.JObj? then
      match FindField(node.fields, "children")
      case Some(k) => if node.fields[k].1.JArr? then Some(k) else None
      case None => None
    else None
  }

  /** `has_children`: a non-empty "children" array. */
  predicate HasChildren(node: Json)
  {
    KidsIndex(node).Some? && |node.fields[KidsIndex(node).value].1.items| > 0
  }

  function NameAnnotation(name: Option<string>): string
  {
    match name case Some(n) => " \"" + n + "\"" case None => ""
  }

  function RefAnnotation(refId: Option<string>): string
  {
    match refId case Some(r) => " [ref=" + r + "]" case None => ""
  }

  function LevelAnnotation(level: Option<nat>): string
  {
    match level case Some(l) => " [level=" + NatToString(l) + "]" case None => ""
  }

  function CheckedAnnotation(checked: Option<bool>): string
  {
    match checked case Some(c) => " [checked=" + (if c then "true" else "false") + "]" case None => ""
  }

  /** An empty value is not shown. */
  function ValueAnnotation(value: Option<string>): string
  {
    match value case Some(v) => if v != [] then " [value=\"" + v + "\"]" else "" case None => ""
  }

  function NamePart(node: Json): string { NameAnnotation(AsStr(Get(node, "name"))) }
  function RefPart(node: Json): string { RefAnnotation(AsStr(Get(node, "ref"))) }
  function LevelPart(node: Json): string { LevelAnnotation(AsU64(Get(node, "level"))) }
  function CheckedPart(node: Json): string { CheckedAnnotation(AsBool(Get(node, "checked"))) }
  function ValuePart(node: Json): string { ValueAnnotation(AsStr(Get(node, "value"))) }

  /** A ':' for a node with children or a url. */
  function ColonPart(node: Json): string
  {
    if HasChildren(node) || AsStr(Get(node, "url")).Some? then ":" else ""
  }

  /** Indentation, "- " and the role. */
  function LinePrefix(node: Json, depth: nat): string
  {
    Repeat("  ", depth) + "- " + Role(node)
  }

  /** The prefix followed by the name, ref, level, checked and value annotations, in that order. */
  function Annotated(node: Json, depth: nat): string
  {
    LinePrefix(node, depth) + NamePart(node) + RefPart(node) + LevelPart(node) + CheckedPart(node) + ValuePart(node)
  }

  /** The first line of a non-text node. */
  function HeaderLine(node: Json, depth: nat): string
  {
    Annotated(node, depth) + ColonPart(node) + "\n"
  }

  function UrlLine(node: Json, depth: nat): string
  {
    match AsStr(Get(node, "url")) case Some(u) => Repeat("  ", depth) + "  - /url: " + u + "\n" case None => ""
  }

  function TextLine(node: Json, depth: nat): string
  {
    match AsStr(Get(node, "content"))
    case Some(c) => if c != [] then Repeat("  ", depth) + "- text: " + c + "\n" else ""
    case None => ""
  }

  /** The text rendering of a snapshot node at the given depth. */
  function Render(node: Json, depth: nat): string
    decreases node, 2
  {
    if Role(node) == "text" then TextLine(node, depth)
    else HeaderLine(node, depth) + UrlLine(node, depth) + RenderChildren(node, depth + 1)
  }

  /** The children of an array-valued "children" field, each at the given depth. */
  function RenderChildren(node: Json, depth: nat): string
    decreases node, 1
  {
    match KidsIndex(node)
    case None => ""
    case Some(k) => RenderKids(node, k, |node.fields[k].1.items|, depth)
  }

  /** The first i children rendered in order. */
  function RenderKids(node: Json, k: nat, i: nat, depth: nat): string
    requires node.JObj? && k < |node.fields| && node.fields[k].1.JArr? && i <= |node.fields[k].1.items|
    decreases node, 0, i
  {
    if i == 0 then "" else RenderKids(node, k, i - 1, depth) + Render(node.fields[k].1.items[i - 1], depth)
  }

  /**
   * `render_snapshot_tree`: the line of the node, its /url line, then each
   * child at depth + 1, appended to one growing string (the loop over the
   * children is `AppendChildren`).
   */
  method RenderSnapshotTree(node: Json, depth: nat) returns (output: string)
    ensures output == Render(node, depth)
    decreases node, 1
  {
    output := "";
    var indent := Repeat("  ", depth);
    var role := Role(node);
    if role == "text" {
      var content := AsStr(Get(node, "content"));
      if content.Some? && content.value != [] {
        output := output + (indent + "- text: " + content.value + "\n");
      }
      return;
    }
    var url := AsStr(Get(node, "url"));
    // The line with its present annotations, as built by the header function.
    var line := HeaderLine(node, depth);
    assert output + line == line;
    output := output + line;
    if url.Some? {
      output := output + (indent + "  - /url: " + url.value + "\n");
    } else {
      AppendEmpty(output);
    }
    assert output == HeaderLine(node, depth) + UrlLine(node, depth);
    output := AppendChildren(node, depth + 1, output);
  }

  /** The loop of `render_snapshot_tree`: each element of the "children" array, rendered and appended. */
  method AppendChildren(node: Json, depth: nat, head: string) returns (output: string)
    ensures output == head + RenderChildren(node, depth)
    decreases node, 0
  {
    output := head;
    // The "children" field when it holds an array (`get("children")` then `as_array`).
    var children := KidsIndex(node);
    if children.Some? {
      var k := children.value;
      var kids := node.fields[k].1.items;
      var i := 0;
      while i < |kids|
        invariant 0 <= i <= |kids|
        invariant output == head + RenderKids(node, k, i, depth)
        decreases |kids| - i
      {
        KidBelow(node, k, i);
        var s := RenderSnapshotTree(kids[i], depth);
        RenderKidsStep(head, node, k, i, depth, s);
        output := output + s;
        i := i + 1;
      }
    } else {
      AppendEmpty(head);
    }
  }

  /** Appending the next child's rendering extends the rendering of the children before it. */
  lemma KidBelow(node: Json, k: nat, i: nat)
    requires node.JObj? && k < |node.fields| && node.fields[k].1.JArr? && i < |node.fields[k].1.items|
    ensures node.fields[k].1.items[i] < node
  {
    assert node.fields[k].1 < node;
  }

  lemma RenderKidsStep(head: string, node: Json, k: nat, i: nat, depth: nat, s: string)
    requires node.JObj? && k < |node.fields| && node.fields[k].1.JArr? && i < |node.fields[k].1.items|
    requires s == Render(node.fields[k].1.items[i], depth)
    ensures head + RenderKids(node, k, i, depth) + s == head + RenderKids(node, k, i + 1, depth)
  {
    AppendAssoc(head, RenderKids(node, k, i, depth), s);
  }

  /**
   * A text node renders nothing unless its content is a non-empty string; then
   * it renders one line-feed-terminated line of the indentation and "- text: ",
   * from which the content reads back between that lead and the line feed.
   */
  lemma RenderText(node: Json, depth: nat)
    requires Role(node) == "text"
    ensures var c := AsStr(Get(node, "content"));
      var r := Render(node, depth);
      var lead := Repeat("  ", depth) + "- text: ";
      && (r == [] <==> !(c.Some? && c.value != []))
      && (r != [] ==>
            && |r| == 2 * depth + 9 + |c.value|
            && StartsWith(r, lead)
            && r[|lead|..|r| - 1] == c.value
            && r[|r| - 1] == '\n')
  {
    var c := AsStr(Get(node, "content"));
    if c.Some? && c.value != [] {
      var lead := Repeat("  ", depth) + "- text: ";
      var r := Render(node, depth);
      assert |"  "| == 2;
      assert |Repeat("  ", depth)| == depth * 2;
      assert r == lead + c.value + "\n";
      assert r[..|lead|] == lead;
      assert r[|lead|..|r| - 1] == c.value;
    }
  }

  lemma StartsWithConcat(a: string, b: string)
    ensures StartsWith(a + b, a)
  {
    assert (a + b)[..|a|] == a;
  }

  lemma StartsWithTrans(a: string, b: string, c: string)
    requires StartsWith(a, b) && StartsWith(b, c)
    ensures StartsWith(a, c)
  {
    assert a[..|c|] == b[..|c|];
  }

  /** Every other node's rendering starts with its header line, which starts with 2 * depth spaces and "- role". */
  lemma RenderHeader(node: Json, depth: nat)
    requires Role(node) != "text"
    ensures StartsWith(Render(node, depth), LinePrefix(node, depth))
    ensures StartsWith(Render(node, depth), HeaderLine(node, depth))
  {
    var p := LinePrefix(node, depth);
    var a := Annotated(node, depth);
    var h := HeaderLine(node, depth);
    var u := UrlLine(node, depth);
    StartsWithConcat(h + u, RenderChildren(node, depth + 1));
    StartsWithConcat(h, u);
    StartsWithTrans(Render(node, depth), h + u, h);
    AnnotatedStartsWithPrefix(node, depth);
    StartsWithConcat(a, ColonPart(node));
    StartsWithConcat(a + ColonPart(node), "\n");
    StartsWithTrans(h, a + ColonPart(node), a);
    StartsWithTrans(h, a, p);
    StartsWithTrans(Render(node, depth), h, p);
  }

  lemma AnnotatedStartsWithPrefix(node: Json, depth: nat)
    ensures StartsWith(Annotated(node, depth), LinePrefix(node, depth))
  {
    var p := LinePrefix(node, depth);
    var x1 := p + NamePart(node);
    var x2 := x1 + RefPart(node);
    var x3 := x2 + LevelPart(node);
    var x4 := x3 + CheckedPart(node);
    StartsWithConcat(p, NamePart(node));
    StartsWithConcat(x1, RefPart(node));
    StartsWithConcat(x2, LevelPart(node));
    StartsWithConcat(x3, CheckedPart(node));
    StartsWithConcat(x4, ValuePart(node));
    StartsWithTrans(x2, x1, p);
    StartsWithTrans(x3, x2, p);
    StartsWithTrans(x4, x3, p);
    StartsWithTrans(Annotated(node, depth), x4, p);
  }

  /** The header line ends in ":" exactly when the colon part is added: for children or a url. */
  lemma HeaderColon(node: Json, depth: nat)
    requires HasChildren(node) || AsStr(Get(node, "url")).Some?
    ensures EndsWith(HeaderLine(node, depth), ":\n")
  {
    assert HeaderLine(node, depth) == Annotated(node, depth) + ":\n";
  }

  /** A non-text node without children and without a url renders as its header line alone. */
  lemma RenderLeaf(node: Json, depth: nat)
    requires Role(node) != "text" && !HasChildren(node) && AsStr(Get(node, "url")).None?
    ensures Render(node, depth) == HeaderLine(node, depth)
    ensures HeaderLine(node, depth) == Annotated(node, depth) + "\n"
  {
    var h := HeaderLine(node, depth);
    assert UrlLine(node, depth) == "";
    assert RenderChildren(node, depth + 1) == "" by {
      match KidsIndex(node) {
        case None =>
        case Some(k) => assert RenderKids(node, k, 0, depth + 1) == "";
      }
    }
    AppendEmpty(h);
    AppendEmpty(h + "");
    assert ColonPart(node) == "";
    AppendEmpty(Annotated(node, depth));
  }

  /** An empty or missing value attribute adds nothing to the line; a non-empty one is shown quoted. */
  lemma ValueShownIffNonEmpty(node: Json, depth: nat)
    ensures var base := LinePrefix(node, depth) + NamePart(node) + RefPart(node) + LevelPart(node) + CheckedPart(node);
      var v := AsStr(Get(node, "value"));
      && (v.None? || v.value == [] ==> Annotated(node, depth) == base)
      && (v.Some? && v.value != [] ==> Annotated(node, depth) == base + " [value=\"" + v.value + "\"]")
  {
    var base := LinePrefix(node, depth) + NamePart(node) + RefPart(node) + LevelPart(node) + CheckedPart(node);
    var v := AsStr(Get(node, "value"));
    if v.None? || v.value == [] {
      assert ValuePart(node) == "";
      AppendEmpty(base);
    }
  }

  /** Empty, or ending in a line feed. */
  predicate NewlineTerminated(s: string)
  {
    s == [] || s[|s| - 1] == '\n'
  }

  lemma NewlineConcat(a: string, b: string)
    requires NewlineTerminated(a) && NewlineTerminated(b)
    ensures NewlineTerminated(a + b)
  {
    if b != [] {
      assert (a + b)[|a + b| - 1] == b[|b| - 1];
    } else {
      assert a + b == a;
    }
  }

  lemma LineTerminated(x: string)
    ensures NewlineTerminated(x + "\n")
  {
  }

  /** Every rendering is a sequence of whole lines. */
  lemma {:induction false} RenderEndsWithNewline(node: Json, depth: nat)
    ensures NewlineTerminated(Render(node, depth))
    decreases node, 2
  {
    if Role(node) == "text" {
      match AsStr(Get(node, "content")) {
        case Some(c) => LineTerminated(Repeat("  ", depth) + "- text: " + c);
        case None =>
      }
    } else {
      var h := HeaderLine(node, depth);
      var u := UrlLine(node, depth);
      LineTerminated(Annotated(node, depth) + ColonPart(node));
      match AsStr(Get(node, "url")) {
        case Some(x) => LineTerminated(Repeat("  ", depth) + "  - /url: " + x);
        case None =>
      }
      NewlineConcat(h, u);
      RenderChildrenEndsWithNewline(node, depth + 1);
      NewlineConcat(h + u, RenderChildren(node, depth + 1));
    }
  }

  lemma {:induction false} RenderChildrenEndsWithNewline(node: Json, depth: nat)
    ensures NewlineTerminated(RenderChildren(node, depth))
    decreases node, 1
  {
    match KidsIndex(node)
    case None =>
    case Some(k) => RenderKidsEndsWithNewline(node, k, |node.fields[k].1.items|, depth);
  }

  lemma {:induction false} RenderKidsEndsWithNewline(node: Json, k: nat, i: nat, depth: nat)
    requires node.JObj? && k < |node.fields| && node.fields[k].1.JArr? && i <= |node.fields[k].1.items|
    ensures NewlineTerminated(RenderKids(node, k, i, depth))
    decreases node, 0, i
  {
    if i > 0 {
      RenderKidsEndsWithNewline(node, k, i - 1, depth);
      RenderEndsWithNewline(node.fields[k].1.items[i - 1], depth);
      NewlineConcat(RenderKids(node, k, i - 1, depth), Render(node.fields[k].1.items[i - 1], depth));
    }
  }

}
