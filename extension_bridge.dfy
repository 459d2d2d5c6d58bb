/**
 * The extension bridge: the CDP method allowlist with its risk levels, the
 * WebSocket Origin check, the PID and port file formats, and the table of
 * CLI requests that wait for an answer from the extension.
 */
module ExtensionBridge {
  import opened Wrappers
  import opened Text
  import opened Json

  // ---------------------------------------------------------------------------
  // Method allowlist
  // ---------------------------------------------------------------------------

  /** L1 = read-only, L2 = page modification, L3 = high risk. */
  datatype RiskLevel = L1 | L2 | L3

  /** `RiskLevel::as_str`: the level's name as sent to the extension. */
  function RiskName(level: RiskLevel): (r: string)
    ensures |r| == 2 && r[0] == 'L'
  {
    match level
    case L1 => "L1"
    case L2 => "L2"
    case L3 => "L3"
  }

  /** Different levels are sent under different names. */
  lemma RiskNameInjective(a: RiskLevel, b: RiskLevel)
    requires RiskName(a) == RiskName(b)
    ensures a == b
  {
    assert RiskName(a)[1] == RiskName(b)[1];
  }

  const ReadOnlyMethods: set<string> := {
    "Page.captureScreenshot", "DOM.getDocument", "DOM.querySelector",
    "DOM.querySelectorAll", "DOM.getOuterHTML", "Network.getCookies"}

  const ModifyingMethods: set<string> := {
    "Runtime.evaluate", "Page.navigate", "Page.reload", "Input.dispatchMouseEvent",
    "Input.dispatchKeyEvent", "Emulation.setDeviceMetricsOverride", "Page.printToPDF"}

  const HighRiskMethods: set<string> := {
    "Network.setCookie", "Network.deleteCookies", "Network.clearBrowserCookies",
    "Page.setDownloadBehavior", "Storage.clearDataForOrigin"}

  const ExtensionPrefix: string := "Extension."

  /**
   * `get_risk_level`: each listed method has its own level, every
   * `Extension.*` method is read-only, and every other method is refused.
   */
  function GetRiskLevel(m: string): (r: Option<RiskLevel>)
    ensures r == Some(L1) <==> m in ReadOnlyMethods || StartsWith(m, ExtensionPrefix)
    ensures r == Some(L2) <==> m in ModifyingMethods
    ensures r == Some(L3) <==> m in HighRiskMethods
  {
    ListedNotExtension(m);
    if m in ReadOnlyMethods then Some(L1)
    else if m in ModifyingMethods then Some(L2)
    else if m in HighRiskMethods then Some(L3)
    else if StartsWith(m, ExtensionPrefix) then Some(L1)
    else None
  }

  /** No listed method lies in the `Extension.` namespace. */
  lemma ListedNotExtension(m: string)
    ensures m in ModifyingMethods || m in HighRiskMethods ==> !StartsWith(m, ExtensionPrefix)
  {
    if m in ModifyingMethods || m in HighRiskMethods {
      assert m[0] != 'E' || m[1] != 'x';
    }
  }

  // ---------------------------------------------------------------------------
  // Origin validation
  // ---------------------------------------------------------------------------

  datatype Origin = Origin(scheme: string, host: string, port: Option<string>)

  /**
   * o starts with scheme + "://" + host, and the host ends the text or is
   * followed by ':' or '/'.
   */
  predicate HostAt(o: string, scheme: string, host: string)
  {
    var n := |scheme| + 3 + |host|;
    n <= |o| && o[..|scheme|] == scheme && o[|scheme|..|scheme| + 3] == "://"
    && o[|scheme| + 3..n] == host && (n == |o| || o[n] == ':' || o[n] == '/')
  }

  /**
   * `parse_origin`: the scheme before the first "://" and the host and port
   * read from the rest, which must not be empty.
   */
  function ParseOrigin(o: string): (r: Option<Origin>)
    ensures r.Some? ==> (r.value.host != [] && HostAt(o, r.value.scheme, r.value.host)
      && (o[|r.value.scheme| + 3] == '[' ==> r.value.host[|r.value.host| - 1] == ']'))
    ensures r.Some? && r.value.port.Some? ==> (var p := r.value.port.value; p == [] || p[|p| - 1] != '/')
  {
    match IndexOf(o, "://")
    case None => None
    case Some(k) =>
      var rest := o[k + 3..];
      match ParseAuthority(rest)
      case None => None
      case Some(hp) =>
        assert o[k + 3..k + 3 + |hp.0|] == hp.0;
        Some(Origin(o[..k], hp.0, hp.1))
  }

  /**
   * The host and port after "://": a bracketed IPv6 host is kept with its
   * brackets and may be followed by nothing, a single '/' or ':' and a port;
   * any other host runs up to the first ':'. Trailing '/' are dropped from the
   * port, or from the host when there is no port. An empty host is refused.
   */
  function ParseAuthority(rest: string): (r: Option<(string, Option<string>)>)
    ensures r.Some? ==> (var host := r.value.0;
      host != [] && |host| <= |rest| && rest[..|host|] == host
      && (|host| == |rest| || rest[|host|] == ':' || rest[|host|] == '/')
      && (rest[0] == '[' ==> host[|host| - 1] == ']'))
    ensures r.Some? && r.value.1.Some? ==> (var p := r.value.1.value; p == [] || p[|p| - 1] != '/')
  {
    if rest == [] then None
    else if rest[0] == '[' then
      match FindChar(rest, ']')
      case None => None
      case Some(e) =>
        var host := rest[..e + 1];
        var after := rest[e + 1..];
        if after == [] || after == "/" then Some((host, None))
        else if after[0] == ':' then Some((host, Some(TrimEndMatches(after[1..], '/'))))
        else None
    else
      match FindChar(rest, ':')
      case Some(i) =>
        var host := rest[..i];
        if host == [] then None else Some((host, Some(TrimEndMatches(rest[i + 1..], '/'))))
      case None =>
        var host := TrimEndMatches(rest, '/');
        if host == [] then None else Some((host, None))
  }

  const AllowedExtensionId: string := "dpfioflkmnkklgjldmaggkodhlidkdcd"
  const LoopbackHosts: set<string> := {"127.0.0.1", "localhost", "[::1]"}

  /**
   * `is_origin_allowed`: no Origin header (a CLI client) is accepted; otherwise
   * the lower-cased origin must parse and be either the one allowed
   * extension or plain http on a loopback host.
   */
  function IsOriginAllowed(origin: Option<string>): (r: bool)
    ensures origin.None? ==> r
  {
    match origin
    case None => true
    case Some(o) => AcceptedOrigin(ParseOrigin(Lower(o)))
  }

  /** The scheme and host test applied to a parsed origin. */
  predicate AcceptedOrigin(p: Option<Origin>)
  {
    match p
    case None => false
    case Some(v) =>
      if v.scheme == "chrome-extension" then v.host == AllowedExtensionId
      else v.scheme == "http" && v.host in LoopbackHosts
  }

  /** Matching ignores ASCII case. */
  lemma OriginCaseInsensitive(o: string)
    ensures IsOriginAllowed(Some(Lower(o))) == IsOriginAllowed(Some(o))
  {
    LowerIdempotent(o);
  }

  /**
   * An accepted origin names the allowed extension or a loopback host
   * exactly: the host is followed by nothing, a port or a '/', so a longer
   * host such as 127.0.0.1.evil.com does not pass.
   */
  lemma OriginAllowedShape(o: string)
    requires IsOriginAllowed(Some(o))
    ensures var l := Lower(o);
      HostAt(l, "chrome-extension", AllowedExtensionId) || HostAt(l, "http", "127.0.0.1")
      || HostAt(l, "http", "localhost") || HostAt(l, "http", "[::1]")
  {
    AcceptedHostAt(Lower(o), ParseOrigin(Lower(o)));
  }

  lemma AcceptedHostAt(l: string, p: Option<Origin>)
    requires AcceptedOrigin(p) && HostAt(l, p.value.scheme, p.value.host)
    ensures HostAt(l, "chrome-extension", AllowedExtensionId) || HostAt(l, "http", "127.0.0.1")
      || HostAt(l, "http", "localhost") || HostAt(l, "http", "[::1]")
  {
  }

  /** A host name longer than a loopback name by anything but a port or a path is refused. */
  lemma LoopbackPrefixRejected(host: string, tail: string)
    requires host in LoopbackHosts
    requires tail != [] && tail[0] != ':' && tail[0] != '/'
    requires NoUpper(tail)
    ensures !IsOriginAllowed(Some("http://" + host + tail))
  {
    var l := "http://" + host + tail;
    LoopbackPlain(host);
    LowerFixed3("http://", host, tail);
    if IsOriginAllowed(Some(l)) {
      OriginAllowedShape(l);
      HostAtDiffers(l, host, tail);
    }
  }

  lemma HostAtDiffers(l: string, host: string, tail: string)
    requires host in LoopbackHosts && l == "http://" + host + tail
    requires tail != [] && tail[0] != ':' && tail[0] != '/'
    ensures !HostAt(l, "chrome-extension", AllowedExtensionId)
    ensures !HostAt(l, "http", "127.0.0.1") && !HostAt(l, "http", "localhost") && !HostAt(l, "http", "[::1]")
  {
    assert l[0] == 'h';
    assert l[7] == host[0];
    assert l[7 + |host|] == tail[0];
  }

  /** Plain http on a loopback host, with or without a port or a final '/', is accepted. */
  lemma LoopbackAccepted(host: string, tail: string)
    requires host in LoopbackHosts
    requires tail == [] || tail == "/" || tail[0] == ':'
    requires NoUpper(tail)
    ensures IsOriginAllowed(Some("http://" + host + tail))
  {
    LoopbackPlain(host);
    LowerFixed3("http://", host, tail);
    LoopbackAuthority(host, tail);
    var hp := ParseAuthority(host + tail).value;
    assert AcceptedOrigin(Some(Origin("http", hp.0, hp.1)));
    AllowedBy("http://" + host + tail, "http://", "http", host, tail);
  }

  /**
   * An origin already in lower case, whose scheme has no ':' and whose
   * authority parses to an accepted host, is allowed.
   */
  lemma AllowedBy(o: string, prefix: string, scheme: string, host: string, tail: string)
    requires prefix == scheme + "://" && o == prefix + host + tail && ':' !in scheme
    requires Lower(o) == o
    requires ParseAuthority(host + tail).Some?
    requires AcceptedOrigin(Some(Origin(scheme, ParseAuthority(host + tail).value.0, ParseAuthority(host + tail).value.1)))
    ensures IsOriginAllowed(Some(o))
  {
    ParsedBy(o, prefix, scheme, host, tail);
  }

  lemma ParsedBy(o: string, prefix: string, scheme: string, host: string, tail: string)
    requires prefix == scheme + "://" && o == prefix + host + tail && ':' !in scheme
    ensures ParseOrigin(o) == (match ParseAuthority(host + tail)
      case None => None
      case Some(hp) => Some(Origin(scheme, hp.0, hp.1)))
  {
    Reassociate(prefix, host, tail);
    OriginOf(scheme, host + tail);
  }

  lemma Reassociate(a: string, b: string, c: string)
    ensures a + b + c == a + (b + c)
  {
  }

  lemma LoopbackAuthority(host: string, tail: string)
    requires host in LoopbackHosts
    requires tail == [] || tail == "/" || tail[0] == ':'
    ensures ParseAuthority(host + tail).Some? && ParseAuthority(host + tail).value.0 == host
  {
    LoopbackPlain(host);
    if host == "[::1]" {
      AuthorityBracket(host, tail);
    } else {
      AuthorityPlain(host, tail);
    }
  }

  /** The allowed extension's origin, with or without a final '/', is accepted. */
  lemma ExtensionAccepted(tail: string)
    requires tail == [] || tail == "/"
    ensures IsOriginAllowed(Some("chrome-extension://" + AllowedExtensionId + tail))
  {
    ExtensionIdPlain();
    LowerFixed3("chrome-extension://", AllowedExtensionId, tail);
    AuthorityPlain(AllowedExtensionId, tail);
    var hp := ParseAuthority(AllowedExtensionId + tail).value;
    assert AcceptedOrigin(Some(Origin("chrome-extension", hp.0, hp.1)));
    SchemePrefixes();
    AllowedBy("chrome-extension://" + AllowedExtensionId + tail, "chrome-extension://", "chrome-extension", AllowedExtensionId, tail);
  }

  lemma SchemePrefixes()
    ensures "chrome-extension://" == "chrome-extension" + "://" && ':' !in "chrome-extension"
  {
    assert "chrome-extension" + "://" == "chrome-extension://";
  }

  lemma ExtensionIdPlain()
    ensures NoUpper(AllowedExtensionId) && ':' !in AllowedExtensionId
    ensures AllowedExtensionId[0] != '[' && AllowedExtensionId[|AllowedExtensionId| - 1] != '/'
  {
  }

  lemma LoopbackPlain(host: string)
    requires host in LoopbackHosts
    ensures NoUpper(host)
    ensures host != "[::1]" ==> host[0] != '[' && ':' !in host && host[|host| - 1] != '/'
    ensures host == "[::1]" ==> forall i :: 0 <= i < |host| - 1 ==> host[i] != ']'
  {
  }

  /** When the scheme has no ':', the origin splits at the "://" right after it. */
  lemma OriginOf(scheme: string, rest: string)
    requires ':' !in scheme
    ensures ParseOrigin(scheme + "://" + rest) == (match ParseAuthority(rest)
      case None => None
      case Some(hp) => Some(Origin(scheme, hp.0, hp.1)))
  {
    var o := scheme + "://" + rest;
    SchemeSplit(scheme, rest);
    assert o[..|scheme|] == scheme;
    assert o[|scheme| + 3..] == rest;
  }

  /** The scheme is everything before the first "://" when the scheme has no ':'. */
  lemma SchemeSplit(scheme: string, rest: string)
    requires ':' !in scheme
    ensures IndexOf(scheme + "://" + rest, "://") == Some(|scheme|)
  {
    var e := scheme + "://" + rest;
    var n := |scheme|;
    assert e[n..n + 3] == "://";
    forall k | 0 <= k < n
      ensures !StartsWith(e[k..], "://")
    {
      assert e[k..][0] == scheme[k];
    }
    IndexOfAt(e, "://", n);
  }

  /** A host without brackets, ':' or a final '/' is read back whole. */
  lemma AuthorityPlain(host: string, tail: string)
    requires host != [] && host[0] != '[' && ':' !in host && host[|host| - 1] != '/'
    requires tail == [] || tail == "/" || tail[0] == ':'
    ensures ParseAuthority(host + tail).Some? && ParseAuthority(host + tail).value.0 == host
  {
    var rest := host + tail;
    assert rest[0] == host[0];
    FindCharAppend(host, tail, ':');
    if tail != [] && tail[0] == ':' {
      assert rest[..|host|] == host;
    } else {
      TrimEndSlash(host, tail);
    }
  }

  /** A bracketed host is read back with its brackets. */
  lemma AuthorityBracket(host: string, tail: string)
    requires |host| >= 2 && host[0] == '[' && host[|host| - 1] == ']'
    requires forall i :: 0 <= i < |host| - 1 ==> host[i] != ']'
    requires tail == [] || tail == "/" || tail[0] == ':'
    ensures ParseAuthority(host + tail).Some? && ParseAuthority(host + tail).value.0 == host
  {
    var n := |host| - 1;
    var rest := host + tail;
    assert rest == host[..n] + ([']'] + tail);
    assert rest[0] == '[';
    FindCharAppend(host[..n], [']'] + tail, ']');
    assert rest[..n + 1] == host;
    assert rest[n + 1..] == tail;
  }

  lemma TrimEndSlash(host: string, tail: string)
    requires host != [] && host[|host| - 1] != '/' && (tail == [] || tail == "/")
    ensures TrimEndMatches(host + tail, '/') == host
  {
    if tail == "/" {
      assert (host + tail)[..|host|] == host;
    } else {
      AppendEmpty(host);
    }
  }

  // ---------------------------------------------------------------------------
  // Port and PID files
  // ---------------------------------------------------------------------------

  /** What `write_port_file` writes: the port in decimal. */
  function PortFileContent(port: nat): (r: string)
    ensures |r| > 0 && AllDigits(r)
  {
    NatToString(port)
  }

  /** `read_port_file`: the trimmed content parsed as a 16-bit port. */
  function ReadPortFile(content: string): (r: Option<nat>)
    ensures r.Some? ==> r.value <= U16_MAX
  {
    ParseUnsigned(Trim(content), U16_MAX)
  }

  /** Digit strings have no surrounding whitespace. */
  lemma DigitsTrimmed(s: string)
    requires |s| > 0 && AllDigits(s)
    ensures Trim(s) == s
  {
    assert IsAsciiDigit(s[0]) && IsAsciiDigit(s[|s| - 1]);
    TrimmedFixed(s);
  }

  lemma PortFileRoundTrip(port: nat)
    requires port <= U16_MAX
    ensures ReadPortFile(PortFileContent(port)) == Some(port)
  {
    NatToStringValue(port);
    ReadPortFileOf(NatToString(port), port);
  }

  lemma ReadPortFileOf(s: string, port: nat)
    requires |s| > 0 && AllDigits(s) && DigitsValue(s) == port && port <= U16_MAX
    ensures ReadPortFile(s) == Some(port)
  {
    DigitsTrimmed(s);
  }

  /** What `write_pid_file` writes: `PID:PORT`. */
  function PidFileContent(pid: nat, port: nat): (r: string)
    ensures var p := NatToString(pid); |p| < |r| && r[..|p|] == p && r[|p|] == ':' && r[|p| + 1..] == NatToString(port)
  {
    NatToString(pid) + ":" + NatToString(port)
  }

  /**
   * `read_pid_file`: the trimmed content split at the first ':' into a 32-bit
   * pid and a 16-bit port; any other content, legacy pid-only files
   * included, reads as nothing.
   */
  function ReadPidFile(content: string): (r: Option<(nat, nat)>)
    ensures r.Some? ==> r.value.0 <= U32_MAX && r.value.1 <= U16_MAX
    ensures ':' !in Trim(content) ==> r.None?
  {
    var t := Trim(content);
    match FindChar(t, ':')
    case None => None
    case Some(i) =>
      var pid := ParseUnsigned(t[..i], U32_MAX);
      var port := ParseUnsigned(t[i + 1..], U16_MAX);
      if pid.Some? && port.Some? then Some((pid.value, port.value)) else None
  }

  lemma DigitsNoColon(s: string)
    requires AllDigits(s)
    ensures ':' !in s
  {
    assert forall i :: 0 <= i < |s| ==> IsAsciiDigit(s[i]);
  }

  /** A digit string parses as its value when that value fits. */
  lemma ParseDigits(s: string, v: nat, max: nat)
    requires |s| > 0 && AllDigits(s) && DigitsValue(s) == v && v <= max
    ensures ParseUnsigned(s, max) == Some(v)
  {
    assert IsAsciiDigit(s[0]);
  }

  /** Reading back what was written gives the same pid and port. */
  lemma PidFileRoundTrip(pid: nat, port: nat)
    requires pid <= U32_MAX && port <= U16_MAX
    ensures ReadPidFile(PidFileContent(pid, port)) == Some((pid, port))
  {
    NatToStringValue(pid);
    NatToStringValue(port);
    ReadPidFileOf(NatToString(pid), NatToString(port), pid, port);
  }

  lemma ReadPidFileOf(a: string, b: string, pid: nat, port: nat)
    requires |a| > 0 && AllDigits(a) && DigitsValue(a) == pid && pid <= U32_MAX
    requires |b| > 0 && AllDigits(b) && DigitsValue(b) == port && port <= U16_MAX
    ensures ReadPidFile(a + ":" + b) == Some((pid, port))
  {
    var c := a + ":" + b;
    assert c[0] == a[0] && IsAsciiDigit(a[0]);
    assert c[|c| - 1] == b[|b| - 1] && IsAsciiDigit(b[|b| - 1]);
    TrimmedFixed(c);
    DigitsNoColon(a);
    FindCharAppend(a, ":" + b, ':');
    assert c == a + (":" + b);
    assert c[..|a|] == a && c[|a| + 1..] == b;
    ParseDigits(a, pid, U32_MAX);
    ParseDigits(b, port, U16_MAX);
    ReadPidFileAt(c, |a|);
  }

  /** A trimmed content whose first ':' is at `i` reads as the numbers on each side. */
  lemma ReadPidFileAt(c: string, i: nat)
    requires Trim(c) == c && FindChar(c, ':') == Some(i)
    requires ParseUnsigned(c[..i], U32_MAX).Some? && ParseUnsigned(c[i + 1..], U16_MAX).Some?
    ensures ReadPidFile(c) == Some((ParseUnsigned(c[..i], U32_MAX).value, ParseUnsigned(c[i + 1..], U16_MAX).value))
  {
  }


  /** A legacy file holding only the pid reads as nothing, so it counts as stale. */
  lemma LegacyPidFileStale(pid: nat)
    ensures ReadPidFile(NatToString(pid)) == None
  {
    var s := NatToString(pid);
    DigitsTrimmed(s);
    DigitsNoColon(s);
  }

  // ---------------------------------------------------------------------------
  // Pending-request table
  // ---------------------------------------------------------------------------

  /** What the bridge does with a CLI command. */
  datatype CliOutcome =
    | HandledDirectly                          // a `Camoufox.*` command, served without the extension
    | Answered(response: Json)                 // an error answer; nothing was forwarded
    | Forwarded(requestId: nat, command: Json) // sent to the extension under a bridge id

  const MethodNotAllowed: int := -32601
  const ServerError: int := -32000

  /** The error reply the CLI receives, under its own id. */
  function ErrorReply(cliId: Json, code: int, message: string): (r: Json)
    ensures Get(r, "id") == Some(cliId)
  {
    JObj([("id", cliId), ("error", JObj([("code", JNum(code)), ("message", JStr(message))]))])
  }

  /** The command forwarded to the extension: the bridge id, the method, its params and its risk level. */
  function CommandMessage(id: nat, cmd: string, params: Json, level: RiskLevel): (r: Json)
  {
    JObj([("id", JNum(id)), ("method", JStr(cmd)), ("params", params), ("risk_level", JStr(RiskName(level)))])
  }

  /** The forwarded command carries the bridge id, the CLI's method and params, and the level's name. */
  lemma CommandMessageFields(id: nat, cmd: string, params: Json, level: RiskLevel)
    ensures var r := CommandMessage(id, cmd, params, level);
      Get(r, "id") == Some(JNum(id)) && Get(r, "method") == Some(JStr(cmd))
      && Get(r, "params") == Some(params) && Get(r, "risk_level") == Some(JStr(RiskName(level)))
  {
    var f := CommandMessage(id, cmd, params, level).fields;
    assert FindFrom(f, "method", 1) == Some(1);
    assert FindFrom(f, "params", 2) == Some(2);
    assert FindFrom(f, "params", 1) == Some(2);
    assert FindFrom(f, "risk_level", 3) == Some(3);
    assert FindFrom(f, "risk_level", 2) == Some(3);
    assert FindFrom(f, "risk_level", 1) == Some(3);
  }

  /**
   * The fields of a CLI command message: the method ("" when absent), the
   * params (null when absent) and the CLI's own id (0 when absent).
   */
  function CliRequest(msg: Json): (r: (string, Json, Json))
    ensures AsStr(Get(msg, "method")).Some? ==> r.0 == AsStr(Get(msg, "method")).value
    ensures AsStr(Get(msg, "method")).None? ==> r.0 == ""
    ensures Get(msg, "params").Some? ==> r.1 == Get(msg, "params").value
    ensures Get(msg, "params").None? ==> r.1 == JNull
    ensures Get(msg, "id").Some? ==> r.2 == Get(msg, "id").value
    ensures Get(msg, "id").None? ==> r.2 == JNum(0)
  {
    (AsStr(Get(msg, "method")).UnwrapOr(""), Get(msg, "params").UnwrapOr(JNull), Get(msg, "id").UnwrapOr(JNum(0)))
  }

  /** The extension's answer as the CLI receives it: the same object with its id replaced. */
  function ReplaceId(resp: seq<(string, Json)>, cliId: Json): (r: Json)
  {
    JObj(SetField(resp, "id", cliId))
  }

  /** The reply carries the CLI's id, and every other field of the extension's answer unchanged. */
  lemma ReplaceIdFields(resp: seq<(string, Json)>, cliId: Json, key: string)
    requires key != "id"
    ensures Get(ReplaceId(resp, cliId), "id") == Some(cliId)
    ensures Get(ReplaceId(resp, cliId), key) == Lookup(resp, key)
  {
    SetFieldLookup(resp, "id", cliId, key);
  }

  /** The shared state of the bridge server. */
  class BridgeState {
    /** `extension_tx.is_some()`. */
    var extensionConnected: bool
    /** Bridge request id -> the id the CLI gave its command. */
    var pending: map<nat, Json>
    var nextId: nat

    /** Every pending id was allocated before, so a fresh id is never pending. */
    ghost predicate Valid()
      reads this
    {
      nextId >= 1 && forall id :: id in pending ==> 1 <= id < nextId
    }

    constructor ()
      ensures Valid()
      ensures !extensionConnected && pending == map[] && nextId == 1
    {
      extensionConnected := false;
      pending := map[];
      nextId := 1;
    }

    /** The extension finished its handshake. */
    method ConnectExtension()
      modifies this
      ensures extensionConnected && pending == old(pending) && nextId == old(nextId)
    {
      extensionConnected := true;
    }

    /**
     * `handle_cli_client` after the handshake: `Camoufox.*` commands are served
     * directly; a method off the allowlist is refused with -32601 before anything
     * is allocated; without an extension the command is refused; otherwise the
     * next id is allocated and the command forwarded, and when the send fails
     * the entry is removed again and the extension marked gone. sendOk is the
     * outcome of the channel send.
     */
    method HandleCliCommand(cmd: string, params: Json, cliId: Json, sendOk: bool) returns (out: CliOutcome)
      requires Valid()
      modifies this
      ensures Valid()
      ensures StartsWith(cmd, "Camoufox.") ==> (out == HandledDirectly
        && pending == old(pending) && nextId == old(nextId) && extensionConnected == old(extensionConnected))
      ensures !StartsWith(cmd, "Camoufox.") && GetRiskLevel(cmd).None? ==> (
        out == Answered(ErrorReply(cliId, MethodNotAllowed, "Method not allowed: " + cmd))
        && pending == old(pending) && nextId == old(nextId) && extensionConnected == old(extensionConnected))
      ensures !StartsWith(cmd, "Camoufox.") && GetRiskLevel(cmd).Some? && !old(extensionConnected) ==> (
        out == Answered(ErrorReply(cliId, ServerError, "Extension not connected"))
        && pending == old(pending) && nextId == old(nextId) && !extensionConnected)
      ensures !StartsWith(cmd, "Camoufox.") && GetRiskLevel(cmd).Some? && old(extensionConnected) ==> (
        nextId == old(nextId) + 1 && old(nextId) !in old(pending)
        && (sendOk ==> (out == Forwarded(old(nextId), CommandMessage(old(nextId), cmd, params, GetRiskLevel(cmd).value))
          && pending == old(pending)[old(nextId) := cliId] && extensionConnected))
        && (!sendOk ==> (out == Answered(ErrorReply(cliId, ServerError, "Extension disconnected"))
          && pending == old(pending) && !extensionConnected)))
    {
      if StartsWith(cmd, "Camoufox.") {
        return HandledDirectly;
      }
      var level := GetRiskLevel(cmd);
      if level.None? {
        return Answered(ErrorReply(cliId, MethodNotAllowed, "Method not allowed: " + cmd));
      }
      if !extensionConnected {
        return Answered(ErrorReply(cliId, ServerError, "Extension not connected"));
      }
      var requestId := nextId;
      nextId := nextId + 1;
      pending := pending[requestId := cliId];
      var command := CommandMessage(requestId, cmd, params, level.value);
      if !sendOk {
        pending := pending - {requestId};
        extensionConnected := false;
        assert pending == old(pending);
        return Answered(ErrorReply(cliId, ServerError, "Extension disconnected"));
      }
      out := Forwarded(requestId, command);
    }

    /**
     * A message from the extension: one whose id is pending removes exactly
     * that entry and is delivered to its CLI under the CLI's id; any other
     * message leaves the table as it is.
     */
    method RouteResponse(resp: Json) returns (delivered: Option<Json>)
      requires Valid()
      modifies this
      ensures Valid()
      ensures nextId == old(nextId) && extensionConnected == old(extensionConnected)
      ensures var id := AsU64(Get(resp, "id"));
        if id.Some? && id.value in old(pending) then
          resp.JObj? && delivered == Some(ReplaceId(resp.fields, old(pending)[id.value]))
          && pending == old(pending) - {id.value}
        else
          delivered == None && pending == old(pending)
    {
      var id := AsU64(Get(resp, "id"));
      if id.Some? && id.value in pending {
        var cliId := pending[id.value];
        pending := pending - {id.value};
        delivered := Some(ReplaceId(resp.fields, cliId));
      } else {
        delivered := None;
      }
    }

    /** The extension went away: every waiting CLI gets an error and the channel is dropped. */
    method DisconnectExtension() returns (drained: map<nat, Json>)
      requires Valid()
      modifies this
      ensures Valid()
      ensures drained == old(pending) && pending == map[] && !extensionConnected && nextId == old(nextId)
    {
      drained := pending;
      pending := map[];
      extensionConnected := false;
    }

    /** A request that timed out: only its own entry is removed. */
    method TimeOut(requestId: nat)
      requires Valid()
      modifies this
      ensures Valid()
      ensures pending == old(pending) - {requestId}
      ensures nextId == old(nextId) && extensionConnected == old(extensionConnected)
    {
      pending := pending - {requestId};
    }
  }

  /** The reply every drained request receives when the extension disconnects. */
  const DisconnectedReply: Json := ErrorReply(JNum(0), ServerError, "Extension disconnected")
}
