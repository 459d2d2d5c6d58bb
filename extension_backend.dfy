/**
 * The extension backend: commands routed through the bridge with the
 * auto-attach rule and the wait for the extension to connect, the escaping of
 * strings embedded in JavaScript, the `tab:N` page ids, the cookie filter of
 * `clear_cookies`, and the handling of evaluation results.
 */
module ExtensionBackend {
  import opened Wrappers
  import opened Text
  import opened Json

  // ---------------------------------------------------------------------------
  // Extension commands with auto-attach
  // ---------------------------------------------------------------------------

  /** The error kinds the bridge client distinguishes here. */
  datatype BridgeError = ExtensionError(message: string) | OtherError(message: string)

  /** A CDP method that failed because no tab was attached. */
  predicate NeedsAutoAttach(first: Result<Json, BridgeError>, cmd: string)
  {
    first.Err? && first.error.ExtensionError? && Contains(first.error.message, "No tab attached")
    && !StartsWith(cmd, "Extension.")
  }

  /** The result of one auto-attaching send and the methods it sent, in order. */
  datatype SendTrace = SendTrace(result: Result<Json, BridgeError>, sent: seq<string>)

  const AttachActiveTab := "Extension.attachActiveTab"

  /**
   * `send_once` (and its twin `extension_send` in the browser command) over
   * the bridge's answers: first to the command, then to the attach request,
   * then to the repeated command. Only a "No tab attached" failure of a
   * non-extension method triggers the one attach and the one retry.
   */
  function ExtensionSend(cmd: string, first: Result<Json, BridgeError>,
                         attach: Result<Json, BridgeError>, retry: Result<Json, BridgeError>): (t: SendTrace)
    ensures 1 <= |t.sent| <= 3 && t.sent[0] == cmd
    ensures !NeedsAutoAttach(first, cmd) ==> t == SendTrace(first, [cmd])
    ensures NeedsAutoAttach(first, cmd) && attach.Err? ==>
      t == SendTrace(Err(attach.error), [cmd, AttachActiveTab])
    ensures NeedsAutoAttach(first, cmd) && attach.Ok? ==>
      t == SendTrace(retry, [cmd, AttachActiveTab, cmd])
    ensures multiset(t.sent)[cmd] <= 2
  {
    if NeedsAutoAttach(first, cmd) then
      assert cmd != AttachActiveTab by {
        assert AttachActiveTab[..10] == "Extension.";
      }
      if attach.Err? then SendTrace(Err(attach.error), [cmd, AttachActiveTab])
      else
        SendTrace(retry, [cmd, AttachActiveTab, cmd])
    else SendTrace(first, [cmd])
  }


  // ---------------------------------------------------------------------------
  // Waiting for the extension to connect
  // ---------------------------------------------------------------------------

  /** Retries after the first attempt (60 x 500 ms = 30 s). */
  const ConnectRetries: nat := 60
  /** Retries made before the user is told what is going on. */
  const SilentRetries: nat := 12

  const ConnectTimeoutError: BridgeError :=
    ExtensionError("Extension did not connect within 30 seconds. Ensure Chrome is open with the Actionbook extension enabled.")

  /** The bridge answered that no extension is connected yet. */
  predicate NotConnected(r: Result<Json, BridgeError>)
  {
    r.Err? && r.error.ExtensionError? && Contains(r.error.message, "Extension not connected")
  }

  /** The first attempt at or after i whose outcome is not "not connected". */
  function FirstConnected(outcomes: seq<Result<Json, BridgeError>>, i: nat): (r: Option<nat>)
    requires i <= |outcomes|
    ensures r.Some? ==> (i <= r.value < |outcomes| && !NotConnected(outcomes[r.value])
      && forall k :: i <= k < r.value ==> NotConnected(outcomes[k]))
    ensures r.None? ==> forall k :: i <= k < |outcomes| ==> NotConnected(outcomes[k])
    decreases |outcomes| - i
  {
    if i == |outcomes| then None
    else if !NotConnected(outcomes[i]) then Some(i)
    else FirstConnected(outcomes, i + 1)
  }

  /** What `send` returns: the first outcome that is not "not connected", or the timeout error. */
  function SendResult(outcomes: seq<Result<Json, BridgeError>>): (r: Result<Json, BridgeError>)
  {
    match FirstConnected(outcomes, 0)
    case Some(i) => outcomes[i]
    case None => Err(ConnectTimeoutError)
  }

  /**
   * `send`: one attempt, then up to 60 retries while the bridge reports that
   * the extension is not connected. outcomes[k] is what the k-th call of
   * `send_once` returns. The waiting notice is given at most once, exactly
   * when the 13th retry still finds no extension.
   */
  method Send(outcomes: seq<Result<Json, BridgeError>>) returns (r: Result<Json, BridgeError>, attempts: nat, notices: nat)
    requires |outcomes| == ConnectRetries + 1
    ensures r == SendResult(outcomes)
    ensures FirstConnected(outcomes, 0).Some? ==> attempts == FirstConnected(outcomes, 0).value + 1
    ensures FirstConnected(outcomes, 0).None? ==> attempts == ConnectRetries + 1
    ensures notices <= 1
    ensures notices == 1 <==> forall k :: 0 <= k <= SilentRetries + 1 ==> NotConnected(outcomes[k])
  {
    r := outcomes[0];
    attempts := 1;
    notices := 0;
    if !NotConnected(r) {
      return;
    }
    var notified := false;
    var attempt := 1;
    while attempt <= ConnectRetries
      invariant 1 <= attempt <= ConnectRetries + 1
      invariant attempts == attempt
      invariant forall k :: 0 <= k < attempt ==> NotConnected(outcomes[k])
      invariant notified <==> attempt > SilentRetries + 1
      invariant notices == if notified then 1 else 0
    {
      var res := outcomes[attempt];
      attempts := attempts + 1;
      if !NotConnected(res) {
        r := res;
        return;
      }
      if attempt > SilentRetries && !notified {
        notices := notices + 1;
        notified := true;
      }
      attempt := attempt + 1;
    }
    r := Err(ConnectTimeoutError);
  }

  // ---------------------------------------------------------------------------
  // Escaping strings for JavaScript
  // ---------------------------------------------------------------------------

  function HexDigit(d: nat): (c: char)
    requires d < 16
  {
    if d < 10 then ('0' as int + d) as char else ('a' as int + d - 10) as char
  }

  predicate IsHexDigit(c: char)
  {
    ('0' <= c <= '9') || ('a' <= c <= 'f') || ('A' <= c <= 'F')
  }

  function HexValue(c: char): (d: nat)
    requires IsHexDigit(c)
    ensures d < 16
  {
    if '0' <= c <= '9' then c as int - '0' as int
    else if 'a' <= c <= 'f' then c as int - 'a' as int + 10
    else c as int - 'A' as int + 10
  }

  lemma HexDigitValue(d: nat)
    requires d < 16
    ensures IsHexDigit(HexDigit(d)) && HexValue(HexDigit(d)) == d
  {
  }

  /**
   * One character of a JSON string body the way serde_json writes it
   * (section 7 of RFC 8259): quote, backslash and the named control
   * characters get a short escape, the other control characters a
   * lower-case `\u00XX` escape, and every other character stays as it is.
   */
  function JsonEscapeChar(c: char): (r: string)
    ensures r != []
  {
    if c == '"' then "\\\""
    else if c == '\\' then "\\\\"
    else if c == '\U{8}' then "\\b"
    else if c == '\U{C}' then "\\f"
    else if c == '\n' then "\\n"
    else if c == '\r' then "\\r"
    else if c == '\t' then "\\t"
    else if (c as int) < 0x20 then "\\u00" + [HexDigit(c as int / 16), HexDigit(c as int % 16)]
    else [c]
  }

  /** The body of `serde_json::to_string(s)`, without the enclosing quotes. */
  function JsonEscape(s: string): (r: string)
  {
    if s == [] then [] else JsonEscapeChar(s[0]) + JsonEscape(s[1..])
  }

  /** `str::replace`: every non-overlapping occurrence of pat, from the left, becomes rep. */
  function Replace(s: string, pat: string, rep: string): (r: string)
    requires pat != []
    decreases |s|
  {
    if StartsWith(s, pat) then rep + Replace(s[|pat|..], pat, rep)
    else if s == [] then []
    else [s[0]] + Replace(s[1..], pat, rep)
  }

  const EscapedQuote: string := "\\\""

  /**
   * `escape_js_string`: the JSON body with `\"` turned back into `"` and every
   * `'` escaped, ready for a single-quoted JavaScript literal.
   */
  function EscapeJs(s: string): (r: string)
  {
    Replace(Replace(JsonEscape(s), EscapedQuote, "\""), "'", "\\'")
  }

  /** The same escaping, character by character. */
  function JsEscapeChar(c: char): (r: string)
  {
    if c == '"' then "\"" else if c == '\'' then "\\'" else JsonEscapeChar(c)
  }

  function JsEscape(s: string): (r: string)
  {
    if s == [] then [] else JsEscapeChar(s[0]) + JsEscape(s[1..])
  }

  /** The JSON body with `\"` turned back into `"`, character by character. */
  function UnquotedJsonChar(c: char): (r: string)
  {
    if c == '"' then "\"" else JsonEscapeChar(c)
  }

  function UnquotedJson(s: string): (r: string)
  {
    if s == [] then [] else UnquotedJsonChar(s[0]) + UnquotedJson(s[1..])
  }

  lemma JsonEscapeCharQuotes(c: char)
    ensures JsonEscapeChar(c)[0] != '"'
    ensures c != '"' ==> '"' !in JsonEscapeChar(c)
    ensures c != '\'' ==> '\'' !in JsonEscapeChar(c)
  {
  }

  lemma JsonEscapeHead(s: string)
    ensures JsonEscape(s) == [] || JsonEscape(s)[0] != '"'
  {
    if s != [] {
      JsonEscapeCharQuotes(s[0]);
    }
  }

  /** Text without '"', not followed by one, passes the `\"` replacement unchanged. */
  lemma {:induction false} QuotePass(t: string, u: string)
    requires '"' !in t && (u == [] || u[0] != '"')
    ensures Replace(t + u, EscapedQuote, "\"") == t + Replace(u, EscapedQuote, "\"")
    decreases |t|
  {
    if t != [] {
      var s := t + u;
      assert !StartsWith(s, EscapedQuote) by {
        if |s| >= 2 {
          assert s[..2][1] == s[1];
          if |t| >= 2 {
            assert s[1] == t[1];
          } else {
            assert s[1] == u[0];
          }
        }
      }
      assert s[1..] == t[1..] + u;
      QuotePass(t[1..], u);
    } else {
      assert t + u == u;
    }
  }

  lemma QuoteStep(u: string)
    ensures Replace(EscapedQuote + u, EscapedQuote, "\"") == "\"" + Replace(u, EscapedQuote, "\"")
  {
    assert (EscapedQuote + u)[2..] == u;
  }

  /** Undoing the quote escapes leaves the JSON escapes of everything else. */
  lemma {:induction false} UnquoteJson(s: string)
    ensures Replace(JsonEscape(s), EscapedQuote, "\"") == UnquotedJson(s)
  {
    if s != [] {
      var u := JsonEscape(s[1..]);
      JsonEscapeHead(s[1..]);
      UnquoteJson(s[1..]);
      if s[0] == '"' {
        QuoteStep(u);
      } else {
        JsonEscapeCharQuotes(s[0]);
        QuotePass(JsonEscapeChar(s[0]), u);
      }
    }
  }

  /** Text without a single quote passes the quote replacement unchanged. */
  lemma {:induction false} ApostrophePass(t: string, u: string)
    requires '\'' !in t
    ensures Replace(t + u, "'", "\\'") == t + Replace(u, "'", "\\'")
    decreases |t|
  {
    if t != [] {
      assert (t + u)[0] == t[0];
      assert (t + u)[1..] == t[1..] + u;
      ApostrophePass(t[1..], u);
    } else {
      assert t + u == u;
    }
  }

  lemma ApostropheStep(u: string)
    ensures Replace("'" + u, "'", "\\'") == "\\'" + Replace(u, "'", "\\'")
  {
    assert ("'" + u)[1..] == u;
  }

  lemma {:induction false} EscapeApostrophes(s: string)
    ensures Replace(UnquotedJson(s), "'", "\\'") == JsEscape(s)
  {
    if s != [] {
      EscapeApostrophes(s[1..]);
      if s[0] == '\'' {
        ApostropheStep(UnquotedJson(s[1..]));
      } else {
        JsonEscapeCharQuotes(s[0]);
        ApostrophePass(UnquotedJsonChar(s[0]), UnquotedJson(s[1..]));
      }
    }
  }

  /** The two replacements over the JSON body amount to escaping each character on its own. */
  lemma EscapeJsPerChar(s: string)
    ensures EscapeJs(s) == JsEscape(s)
  {
    UnquoteJson(s);
    EscapeApostrophes(s);
  }

  /** Plain text, double quotes included, comes out unchanged. */
  lemma {:induction false} EscapePlain(s: string)
    requires forall i :: 0 <= i < |s| ==> s[i] != '\'' && s[i] != '\\' && s[i] as int >= 0x20
    ensures EscapeJs(s) == s
  {
    EscapeJsPerChar(s);
    PlainPerChar(s);
  }

  lemma {:induction false} PlainPerChar(s: string)
    requires forall i :: 0 <= i < |s| ==> s[i] != '\'' && s[i] != '\\' && s[i] as int >= 0x20
    ensures JsEscape(s) == s
  {
    if s != [] {
      PlainPerChar(s[1..]);
      assert s == [s[0]] + s[1..];
    }
  }

  /** A leading single quote comes out escaped, so it cannot close the literal. */
  lemma EscapeLeadingQuote(s: string)
    requires s != [] && s[0] == '\''
    ensures StartsWith(EscapeJs(s), "\\'")
  {
    EscapeJsPerChar(s);
  }

  // The decoding of a single-quoted JavaScript string body, restricted to the
  // escapes above: a bare quote or line break ends the literal (None), and so
  // does any escape this decoder does not know.

  function SimpleEscape(e: char): (r: Option<char>)
  {
    if e == '\'' then Some('\'')
    else if e == '"' then Some('"')
    else if e == '\\' then Some('\\')
    else if e == 'n' then Some('\n')
    else if e == 'r' then Some('\r')
    else if e == 't' then Some('\t')
    else if e == 'b' then Some('\U{8}')
    else if e == 'f' then Some('\U{C}')
    else if e == 'v' then Some('\U{B}')
    else None
  }

  function Prepend(c: char, rest: Option<string>): (r: Option<string>)
  {
    match rest
    case None => None
    case Some(x) => Some([c] + x)
  }

  function UnescapeJs(t: string): (r: Option<string>)
    decreases |t|
  {
    if t == [] then Some([])
    else if t[0] == '\'' || t[0] == '\n' || t[0] == '\r' then None
    else if t[0] != '\\' then Prepend(t[0], UnescapeJs(t[1..]))
    else if |t| < 2 then None
    else if t[1] == 'u' then
      if |t| >= 6 && IsHexDigit(t[2]) && IsHexDigit(t[3]) && IsHexDigit(t[4]) && IsHexDigit(t[5]) then
        var v := HexValue(t[2]) * 4096 + HexValue(t[3]) * 256 + HexValue(t[4]) * 16 + HexValue(t[5]);
        if 0xD800 <= v < 0xE000 then None else Prepend(v as char, UnescapeJs(t[6..]))
      else None
    else
      match SimpleEscape(t[1])
      case Some(c) => Prepend(c, UnescapeJs(t[2..]))
      case None => None
  }

  lemma UnescapeShort(c: char, e: char, rest: string)
    requires e != 'u' && SimpleEscape(e) == Some(c)
    ensures UnescapeJs(['\\', e] + rest) == Prepend(c, UnescapeJs(rest))
  {
    assert (['\\', e] + rest)[2..] == rest;
  }

  lemma UnescapeRaw(c: char, rest: string)
    requires c != '\'' && c != '\n' && c != '\r' && c != '\\'
    ensures UnescapeJs([c] + rest) == Prepend(c, UnescapeJs(rest))
  {
    assert ([c] + rest)[1..] == rest;
  }

  lemma UnescapeControl(c: char, rest: string)
    requires (c as int) < 0x20
    ensures UnescapeJs("\\u00" + [HexDigit(c as int / 16), HexDigit(c as int % 16)] + rest) == Prepend(c, UnescapeJs(rest))
  {
    var n := c as int;
    var t := "\\u00" + [HexDigit(n / 16), HexDigit(n % 16)] + rest;
    HexDigitValue(n / 16);
    HexDigitValue(n % 16);
    assert t[0] == '\\' && t[1] == 'u' && t[2] == '0' && t[3] == '0';
    assert t[4] == HexDigit(n / 16) && t[5] == HexDigit(n % 16);
    assert t[6..] == rest;
    assert (n as char) == c;
  }

  /** Decoding one escaped character gives the character back. */
  lemma UnescapeChar(c: char, rest: string)
    ensures UnescapeJs(JsEscapeChar(c) + rest) == Prepend(c, UnescapeJs(rest))
  {
    if c == '"' {
      UnescapeRaw(c, rest);
    } else if c == '\'' {
      UnescapeShort(c, '\'', rest);
    } else if c == '\\' {
      UnescapeShort(c, '\\', rest);
    } else if c == '\U{8}' {
      UnescapeShort(c, 'b', rest);
    } else if c == '\U{C}' {
      UnescapeShort(c, 'f', rest);
    } else if c == '\n' {
      UnescapeShort(c, 'n', rest);
    } else if c == '\r' {
      UnescapeShort(c, 'r', rest);
    } else if c == '\t' {
      UnescapeShort(c, 't', rest);
    } else if (c as int) < 0x20 {
      UnescapeControl(c, rest);
    } else {
      UnescapeRaw(c, rest);
    }
  }

  lemma {:induction false} UnescapePerChar(s: string)
    ensures UnescapeJs(JsEscape(s)) == Some(s)
  {
    if s != [] {
      UnescapePerChar(s[1..]);
      UnescapeChar(s[0], JsEscape(s[1..]));
      assert s == [s[0]] + s[1..];
    }
  }

  /**
   * Reading the escaped text as the body of a single-quoted JavaScript
   * literal gives back the original string; in particular it never meets a
   * bare single quote, so no input can close the literal early.
   */
  lemma EscapeJsRoundTrip(s: string)
    ensures UnescapeJs(EscapeJs(s)) == Some(s)
  {
    EscapeJsPerChar(s);
    UnescapePerChar(s);
  }

  // ---------------------------------------------------------------------------
  // Page ids
  // ---------------------------------------------------------------------------

  datatype PageEntry = PageEntry(id: string, title: string, url: string)

  /** A page id as `pages` formats it. */
  function TabPageId(n: nat): (r: string)
  {
    "tab:" + NatToString(n)
  }

  /** One tab of `Extension.listTabs`: id `tab:<n>` ("" without a numeric id), title and url with defaults. */
  function PageOf(tab: Json): (r: PageEntry)
    ensures AsU64(Get(tab, "id")).Some? ==> r.id == TabPageId(AsU64(Get(tab, "id")).value)
    ensures AsU64(Get(tab, "id")).None? ==> r.id == ""
  {
    var id := AsU64(Get(tab, "id"));
    PageEntry(if id.Some? then TabPageId(id.value) else "",
              AsStr(Get(tab, "title")).UnwrapOr("(no title)"),
              AsStr(Get(tab, "url")).UnwrapOr(""))
  }

  /** `pages`: one entry per listed tab, in order; no tab list gives none. */
  function Pages(result: Json): (r: seq<PageEntry>)
    ensures var tabs := AsArray(Get(result, "tabs")).UnwrapOr([]);
      |r| == |tabs| && forall i :: 0 <= i < |r| ==> r[i] == PageOf(tabs[i])
  {
    var tabs := AsArray(Get(result, "tabs")).UnwrapOr([]);
    seq(|tabs|, i requires 0 <= i < |tabs| => PageOf(tabs[i]))
  }

  function InvalidTabIdError(pageId: string): string
  {
    "Invalid tab ID: " + pageId + ". Use the numeric ID from 'pages' command (extension mode)"
  }

  /** `switch`: the id with an optional `tab:` prefix removed, parsed as a 64-bit number. */
  function SwitchTabId(pageId: string): (r: Result<nat, string>)
    ensures r.Ok? ==> r.value <= U64_MAX
    ensures r.Err? ==> r.error == InvalidTabIdError(pageId)
  {
    var digits := if StartsWith(pageId, "tab:") then pageId[4..] else pageId;
    match ParseUnsigned(digits, U64_MAX)
    case Some(n) => Ok(n)
    case None => Err(InvalidTabIdError(pageId))
  }

  /** An id as `pages` formats it, and the bare number, both switch to that tab. */
  lemma TabIdRoundTrip(n: nat)
    requires n <= U64_MAX
    ensures SwitchTabId(TabPageId(n)) == Ok(n)
    ensures SwitchTabId(NatToString(n)) == Ok(n)
  {
    NatToStringValue(n);
    SwitchBare(NatToString(n), n);
    SwitchPrefixed("tab:", NatToString(n), n);
  }

  /** A bare digit string switches to its value. */
  lemma SwitchBare(d: string, n: nat)
    requires |d| > 0 && AllDigits(d) && DigitsValue(d) == n && n <= U64_MAX
    ensures SwitchTabId(d) == Ok(n)
  {
    assert IsAsciiDigit(d[0]);
    assert !StartsWith(d, "tab:") by {
      if |d| >= 4 { assert d[..4][0] == d[0]; }
    }
    ParseNumber(d, n);
  }

  /** `tab:` followed by a digit string switches to the digits' value. */
  lemma SwitchPrefixed(prefix: string, d: string, n: nat)
    requires prefix == "tab:"
    requires |d| > 0 && AllDigits(d) && DigitsValue(d) == n && n <= U64_MAX
    ensures SwitchTabId(prefix + d) == Ok(n)
  {
    var p := prefix + d;
    assert p[..4] == prefix && p[4..] == d;
    ParseNumber(d, n);
  }

  lemma ParseNumber(d: string, n: nat)
    requires |d| > 0 && AllDigits(d) && DigitsValue(d) == n && n <= U64_MAX
    ensures ParseUnsigned(d, U64_MAX) == Some(n)
  {
    assert IsAsciiDigit(d[0]);
  }

  /** Every page `pages` lists with a numeric id can be switched to by that id. */
  lemma PagesSwitchRoundTrip(result: Json, i: nat)
    requires i < |Pages(result)|
    requires AsU64(Get(AsArray(Get(result, "tabs")).value[i], "id")).Some?
    ensures SwitchTabId(Pages(result)[i].id) == Ok(AsU64(Get(AsArray(Get(result, "tabs")).value[i], "id")).value)
  {
    var n := AsU64(Get(AsArray(Get(result, "tabs")).value[i], "id")).value;
    TabIdRoundTrip(n);
  }

  /** An id without a single digit is refused. */
  lemma NonNumericTabIdRejected(pageId: string)
    requires forall i :: 0 <= i < |pageId| ==> !IsAsciiDigit(pageId[i])
    ensures SwitchTabId(pageId).Err?
  {
    var digits := if StartsWith(pageId, "tab:") then pageId[4..] else pageId;
    var d := if |digits| > 0 && digits[0] == '+' then digits[1..] else digits;
    if |d| > 0 {
      assert !IsAsciiDigit(d[0]);
    }
  }

  // ---------------------------------------------------------------------------
  // Clearing cookies
  // ---------------------------------------------------------------------------

  function CookieDomain(cookie: Json): string
  {
    AsStr(Get(cookie, "domain")).UnwrapOr("")
  }

  /** The domain filter of `clear_cookies`: no filter, or a cookie domain ending with it. */
  predicate CookieSelected(cookie: Json, domain: Option<string>)
  {
    domain.None? || EndsWith(CookieDomain(cookie), domain.value)
  }

  /** The indices of the first n cookies that the filter selects, in order. */
  function Selected(cookies: seq<Json>, domain: Option<string>, n: nat): (r: seq<nat>)
    requires n <= |cookies|
    ensures |r| <= n
  {
    if n == 0 then []
    else Selected(cookies, domain, n - 1) + (if CookieSelected(cookies[n - 1], domain) then [n - 1] else [])
  }

  /** Selected holds exactly the selected cookies below n, in increasing order. */
  lemma {:induction false} SelectedMembers(cookies: seq<Json>, domain: Option<string>, n: nat)
    requires n <= |cookies|
    ensures forall j: nat :: j in Selected(cookies, domain, n) <==> j < n && CookieSelected(cookies[j], domain)
    ensures forall a :: 0 <= a < |Selected(cookies, domain, n)| ==> Selected(cookies, domain, n)[a] < n
    ensures forall a, b :: 0 <= a < b < |Selected(cookies, domain, n)| ==>
      Selected(cookies, domain, n)[a] < Selected(cookies, domain, n)[b]
  {
    if n > 0 {
      SelectedMembers(cookies, domain, n - 1);
      var p := Selected(cookies, domain, n - 1);
      var r := Selected(cookies, domain, n);
      assert forall a :: 0 <= a < |p| ==> r[a] == p[a];
    }
  }

  /** Without a filter every cookie is selected. */
  lemma {:induction false} SelectedAll(cookies: seq<Json>, n: nat)
    requires n <= |cookies|
    ensures Selected(cookies, None, n) == seq(n, j => j)
  {
    if n > 0 {
      SelectedAll(cookies, n - 1);
    }
  }

  /**
   * `clear_cookies`: a removal request for each selected cookie, in order,
   * stopping at the first request that fails. removeOk(j) is whether the
   * request for cookie j succeeds; removed lists the cookies requested.
   */
  method ClearCookies(cookies: seq<Json>, domain: Option<string>, removeOk: nat -> bool) returns (removed: seq<nat>, ok: bool)
    ensures ok ==> removed == Selected(cookies, domain, |cookies|)
    ensures ok <==> forall j :: j in Selected(cookies, domain, |cookies|) ==> removeOk(j)
    ensures !ok ==> (removed != [] && removed[|removed| - 1] < |cookies|
      && removed == Selected(cookies, domain, removed[|removed| - 1] + 1)
      && !removeOk(removed[|removed| - 1]))
  {
    removed := [];
    var i := 0;
    while i < |cookies|
      invariant 0 <= i <= |cookies|
      invariant removed == Selected(cookies, domain, i)
      invariant forall j :: j in removed ==> removeOk(j)
    {
      if CookieSelected(cookies[i], domain) {
        removed := removed + [i];
        if !removeOk(i) {
          SelectedMembers(cookies, domain, |cookies|);
          ok := false;
          return;
        }
      }
      i := i + 1;
    }
    ok := true;
  }

  // ---------------------------------------------------------------------------
  // Evaluation results
  // ---------------------------------------------------------------------------

  /** The message of an exception report: its text, else its exception's description. */
  function ExceptionText(ex: Json): (r: string)
  {
    var t := Get(ex, "text");
    var v := if t.Some? then t else
      match Get(ex, "exception")
      case Some(e) => Get(e, "description")
      case None => None;
    AsStr(v).UnwrapOr("JavaScript exception")
  }

  /**
   * `eval_with_options` on the answer of `Runtime.evaluate`: an exception
   * report is an error; otherwise `result.value`, else `result`, else null.
   */
  function EvalValue(answer: Json): (r: Result<Json, BridgeError>)
    ensures r.Err? <==> Get(answer, "exceptionDetails").Some?
    ensures r.Ok? && Get(answer, "result").None? ==> r.value == JNull
    ensures r.Ok? && Get(answer, "result").Some? && Get(Get(answer, "result").value, "value").Some? ==>
      r.value == Get(Get(answer, "result").value, "value").value
  {
    match Get(answer, "exceptionDetails")
    case Some(ex) => Err(ExtensionError("JS error (extension mode): " + ExceptionText(ex)))
    case None =>
      match Get(answer, "result")
      case None => Ok(JNull)
      case Some(res) => Ok(Get(res, "value").UnwrapOr(res))
  }

  /** `eval_action`: the action succeeded only when the script reported `success: true`. */
  function EvalAction(value: Result<Json, BridgeError>, actionName: string): (r: Result<(), BridgeError>)
    ensures r.Ok? <==> value.Ok? && Get(value.value, "success") == Some(JBool(true))
    ensures value.Err? ==> r == Err(value.error)
    ensures value.Ok? && r.Err? ==> r.error == ExtensionError(actionName + " failed (extension mode): "
      + AsStr(Get(value.value, "error")).UnwrapOr("Unknown error"))
  {
    match value
    case Err(e) => Err(e)
    case Ok(v) =>
      if AsBool(Get(v, "success")) != Some(true) then
        Err(ExtensionError(actionName + " failed (extension mode): " + AsStr(Get(v, "error")).UnwrapOr("Unknown error")))
      else Ok(())
  }

  /** Compact JSON text (`Value::to_string`), fields in the order held. */
  function Serialize(j: Json): string
  {
    match j
    case JNull => "null"
    case JBool(b) => if b then "true" else "false"
    case JNum(n) => if n < 0 then "-" + NatToString(-n) else NatToString(n)
    case JStr(s) => "\"" + JsonEscape(s) + "\""
    case JArr(items) => "[" + SerializeItems(items) + "]"
    case JObj(fields) => "{" + SerializeFields(fields) + "}"
  }

  function SerializeItems(items: seq<Json>): string
    decreases items
  {
    if items == [] then ""
    else Serialize(items[0]) + (if |items| > 1 then "," else "") + SerializeItems(items[1..])
  }

  function SerializeFields(fields: seq<(string, Json)>): string
    decreases fields
  {
    if fields == [] then ""
    else
      assert fields[0].1 < JObj(fields);
      "\"" + JsonEscape(fields[0].0) + "\":" + Serialize(fields[0].1)
      + (if |fields| > 1 then "," else "") + SerializeFields(fields[1..])
  }

  datatype ReadError = ElementNotFound(target: string)

  /**
   * `html` and `text` on the evaluated value: a string is the answer, null
   * means the element was not found (named by the selector, or by
   * fallback, "document" for html and "body" for text), and any other
   * value is returned as its JSON text.
   */
  function ReadResult(value: Json, selector: Option<string>, fallback: string): (r: Result<string, ReadError>)
    ensures r.Err? <==> value.JNull?
    ensures r.Err? ==> r.error == ElementNotFound(if selector.Some? then selector.value else fallback)
    ensures value.JStr? ==> r == Ok(value.s)
  {
    match value
    case JStr(s) => Ok(s)
    case JNull => Err(ElementNotFound(selector.UnwrapOr(fallback)))
    case _ => Ok(Serialize(value))
  }
}
