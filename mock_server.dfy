/**
 * The Rust mock of the Camoufox REST server: a table of tabs keyed
 * "tab-<uuid>", handlers that look a tab up or change its URL, and the
 * version-4 UUID it generates (section 4.4 of RFC 4122 for the version and
 * variant bits, section 3 for the 8-4-4-4-12 hexadecimal form).
 *
 * The random bytes of the UUID are a parameter; the read/write lock around
 * the table is not modelled, each handler being one atomic step.
 */
module MockServer {
  import opened Wrappers
  import opened Text

  // ---------------------------------------------------------------------------
  // UUID version 4
  // ---------------------------------------------------------------------------

  /** The sixteen random bytes with the version and variant fields overwritten. */
  function WithVersion4(random: seq<bv8>): (r: seq<bv8>)
    requires |random| == 16
    ensures |r| == 16
    ensures r[6] & 0xF0 == 0x40 && r[6] & 0x0F == random[6] & 0x0F
    ensures r[8] & 0xC0 == 0x80 && r[8] & 0x3F == random[8] & 0x3F
    ensures forall i :: 0 <= i < 16 && i != 6 && i != 8 ==> r[i] == random[i]
  {
    random[6 := (random[6] & 0x0F) | 0x40][8 := (random[8] & 0x3F) | 0x80]
  }

  /** `Uuid::new_v4`: fill a 16-byte buffer from the generator, then fix bytes 6 and 8. */
  method NewV4(random: seq<bv8>) returns (bytes: array<bv8>)
    requires |random| == 16
    ensures fresh(bytes) && bytes.Length == 16
    ensures bytes[..] == WithVersion4(random)
  {
    bytes := new bv8[16];
    var i := 0;
    while i < 16
      invariant 0 <= i <= 16
      invariant bytes[..i] == random[..i]
    {
      bytes[i] := random[i];
      i := i + 1;
    }
    bytes[6] := (bytes[6] & 0x0F) | 0x40;
    bytes[8] := (bytes[8] & 0x3F) | 0x80;
  }

  /** Fixing the fields twice is fixing them once. */
  lemma WithVersion4Idempotent(random: seq<bv8>)
    requires |random| == 16
    ensures WithVersion4(WithVersion4(random)) == WithVersion4(random)
  {
    var once := WithVersion4(random);
    var twice := WithVersion4(once);
    assert twice[6] == once[6];
    assert twice[8] == once[8];
    assert forall i :: 0 <= i < 16 ==> twice[i] == once[i];
  }

  /** A lowercase hexadecimal digit. */
  function HexDigit(d: bv8): (c: char)
    requires d < 16
    ensures IsLowerHex(c)
  {
    if d < 10 then ('0' as int + d as int) as char else ('a' as int + d as int - 10) as char
  }

  predicate IsLowerHex(c: char)
  {
    ('0' <= c <= '9') || ('a' <= c <= 'f')
  }

  /** The value of a lowercase hexadecimal digit. */
  function HexValue(c: char): (d: bv8)
    requires IsLowerHex(c)
    ensures d < 16
  {
    if c <= '9' then (c as int - '0' as int) as bv8 else (c as int - 'a' as int + 10) as bv8
  }

  lemma HexDigitValue(d: bv8)
    requires d < 16
    ensures HexValue(HexDigit(d)) == d
  {
  }

  /** `{:02x}`: two lowercase hexadecimal digits, high nibble first. */
  function Hex2(b: bv8): (r: string)
    ensures |r| == 2 && IsLowerHex(r[0]) && IsLowerHex(r[1])
  {
    [HexDigit(b >> 4), HexDigit(b & 0x0F)]
  }

  /** Reading back two digits written by Hex2 gives the byte. */
  lemma Hex2RoundTrip(b: bv8)
    ensures (HexValue(Hex2(b)[0]) << 4) | HexValue(Hex2(b)[1]) == b
  {
    HexDigitValue(b >> 4);
    HexDigitValue(b & 0x0F);
  }

  /** The bytes of s, each as two hexadecimal digits. */
  function HexBytes(s: seq<bv8>): (r: string)
    ensures |r| == 2 * |s|
    ensures forall i :: 0 <= i < |s| ==> r[2 * i] == Hex2(s[i])[0] && r[2 * i + 1] == Hex2(s[i])[1]
  {
    if s == [] then []
    else
      var rest := HexBytes(s[1..]);
      assert forall i :: 1 <= i < |s| ==> s[1..][i - 1] == s[i];
      Hex2(s[0]) + rest
  }

  /** The `Display` form of a UUID: groups of 4, 2, 2, 2 and 6 bytes joined by dashes. */
  function UuidString(b: seq<bv8>): (r: string)
    requires |b| == 16
  {
    HexBytes(b[..4]) + "-" + HexBytes(b[4..6]) + "-" + HexBytes(b[6..8]) + "-"
    + HexBytes(b[8..10]) + "-" + HexBytes(b[10..])
  }

  /** Where byte i's first digit sits in the Display form: after one dash per group passed. */
  function DigitPos(i: nat): (p: nat)
    requires i < 16
  {
    2 * i + (if i >= 4 then 1 else 0) + (if i >= 6 then 1 else 0)
    + (if i >= 8 then 1 else 0) + (if i >= 10 then 1 else 0)
  }

  /**
   * The Display form is 36 characters: dashes exactly at 8, 13, 18 and 23,
   * and byte i's two lowercase digits at DigitPos(i) and the position after.
   */
  lemma UuidStringLayout(b: seq<bv8>)
    requires |b| == 16
    ensures |UuidString(b)| == 36
    ensures forall p :: p in {8, 13, 18, 23} ==> UuidString(b)[p] == '-'
    ensures forall i :: 0 <= i < 16 ==>
      UuidString(b)[DigitPos(i)] == Hex2(b[i])[0] && UuidString(b)[DigitPos(i) + 1] == Hex2(b[i])[1]
  {
    DashedPieces(HexBytes(b[..4]), HexBytes(b[4..6]), HexBytes(b[6..8]), HexBytes(b[8..10]), HexBytes(b[10..]));
    forall i | 0 <= i < 16
      ensures UuidString(b)[DigitPos(i)] == Hex2(b[i])[0] && UuidString(b)[DigitPos(i) + 1] == Hex2(b[i])[1]
    {
      ByteDigits(UuidString(b), b, i);
    }
  }

  /** One byte's two digits in a string laid out as DashedPieces describes. */
  lemma ByteDigits(r: string, b: seq<bv8>, i: nat)
    requires |b| == 16 && i < 16 && |r| == 36
    requires forall k :: 0 <= k < 8 ==> r[k] == HexBytes(b[..4])[k]
    requires forall k :: 0 <= k < 4 ==> r[9 + k] == HexBytes(b[4..6])[k]
    requires forall k :: 0 <= k < 4 ==> r[14 + k] == HexBytes(b[6..8])[k]
    requires forall k :: 0 <= k < 4 ==> r[19 + k] == HexBytes(b[8..10])[k]
    requires forall k :: 0 <= k < 12 ==> r[24 + k] == HexBytes(b[10..])[k]
    ensures r[DigitPos(i)] == Hex2(b[i])[0] && r[DigitPos(i) + 1] == Hex2(b[i])[1]
  {
    if i < 4 {
      assert b[..4][i] == b[i];
      GroupDigits(r, 0, b[..4], i);
    } else if i < 6 {
      assert b[4..6][i - 4] == b[i];
      GroupDigits(r, 9, b[4..6], i - 4);
    } else if i < 8 {
      assert b[6..8][i - 6] == b[i];
      GroupDigits(r, 14, b[6..8], i - 6);
    } else if i < 10 {
      assert b[8..10][i - 8] == b[i];
      GroupDigits(r, 19, b[8..10], i - 8);
    } else {
      assert b[10..][i - 10] == b[i];
      GroupDigits(r, 24, b[10..], i - 10);
    }
  }

  /** Byte j of a group written from off on has its digits at off + 2 * j. */
  lemma GroupDigits(r: string, off: nat, s: seq<bv8>, j: nat)
    requires j < |s| && off + 2 * |s| <= |r|
    requires forall k :: 0 <= k < 2 * |s| ==> r[off + k] == HexBytes(s)[k]
    ensures r[off + 2 * j] == Hex2(s[j])[0] && r[off + 2 * j + 1] == Hex2(s[j])[1]
  {
    assert r[off + 2 * j] == HexBytes(s)[2 * j];
    assert r[off + 2 * j + 1] == HexBytes(s)[2 * j + 1];
  }

  /** Where the five groups and the four dashes of the Display form sit. */
  lemma DashedPieces(g0: string, g1: string, g2: string, g3: string, g4: string)
    requires |g0| == 8 && |g1| == 4 && |g2| == 4 && |g3| == 4 && |g4| == 12
    ensures var r := g0 + "-" + g1 + "-" + g2 + "-" + g3 + "-" + g4;
      |r| == 36 && r[8] == '-' && r[13] == '-' && r[18] == '-' && r[23] == '-'
      && (forall k :: 0 <= k < 8 ==> r[k] == g0[k])
      && (forall k :: 0 <= k < 4 ==> r[9 + k] == g1[k])
      && (forall k :: 0 <= k < 4 ==> r[14 + k] == g2[k])
      && (forall k :: 0 <= k < 4 ==> r[19 + k] == g3[k])
      && (forall k :: 0 <= k < 12 ==> r[24 + k] == g4[k])
  {
  }

  /** Every position of the Display form other than the four dashes holds a lowercase hex digit. */
  lemma UuidStringDigits(b: seq<bv8>)
    requires |b| == 16
    ensures |UuidString(b)| == 36
    ensures forall p :: 0 <= p < 36 && p !in {8, 13, 18, 23} ==> IsLowerHex(UuidString(b)[p])
  {
    UuidStringLayout(b);
    var r := UuidString(b);
    forall p | 0 <= p < 36 && p !in {8, 13, 18, 23}
      ensures IsLowerHex(r[p])
    {
      var i: nat := if p < 8 then p / 2 else if p < 13 then (p - 1) / 2 else if p < 18 then (p - 2) / 2
        else if p < 23 then (p - 3) / 2 else (p - 4) / 2;
      assert p == DigitPos(i) || p == DigitPos(i) + 1;
    }
  }

  /** The byte written at position i of a Display form, read back. */
  function ByteAt(s: string, i: nat): bv8
    requires i < 16 && |s| == 36
    requires IsLowerHex(s[DigitPos(i)]) && IsLowerHex(s[DigitPos(i) + 1])
  {
    (HexValue(s[DigitPos(i)]) << 4) | HexValue(s[DigitPos(i) + 1])
  }

  /** Display loses nothing: every byte can be read back, so distinct UUIDs print differently. */
  lemma UuidStringDecodes(b: seq<bv8>, i: nat)
    requires |b| == 16 && i < 16
    ensures |UuidString(b)| == 36
    ensures IsLowerHex(UuidString(b)[DigitPos(i)]) && IsLowerHex(UuidString(b)[DigitPos(i) + 1])
    ensures ByteAt(UuidString(b), i) == b[i]
  {
    UuidStringLayout(b);
    Hex2RoundTrip(b[i]);
  }

  lemma UuidStringInjective(a: seq<bv8>, b: seq<bv8>)
    requires |a| == 16 && |b| == 16 && UuidString(a) == UuidString(b)
    ensures a == b
  {
    forall i | 0 <= i < 16
      ensures a[i] == b[i]
    {
      UuidStringDecodes(a, i);
      UuidStringDecodes(b, i);
    }
  }

  // ---------------------------------------------------------------------------
  // Server state and handlers
  // ---------------------------------------------------------------------------

  /** What the server remembers of a tab. */
  datatype TabState = TabState(url: string, sessionKey: string)

  /** A handler's error: status 404 with a message. */
  datatype ApiError = NotFound(message: string)

  /** The body of a successful click or type response, and of a navigate response. */
  datatype StatusBody = StatusBody(status: string, message: string) | UrlBody(status: string, url: string)

  /** The accessibility node of the mock snapshot. */
  datatype MockNode = MockNode(
    role: string, name: Option<string>, elementRef: Option<string>,
    children: Option<seq<MockNode>>, value: Option<string>, focusable: Option<bool>)

  /** The fixed tree every snapshot returns. */
  function MockTree(): (t: MockNode)
    ensures t.role == "document" && t.children.Some? && |t.children.value| == 3
    ensures forall i :: 0 <= i < 3 ==> t.children.value[i].children.None?
  {
    MockNode("document", Some("Example Domain"), None, Some([
      MockNode("heading", Some("Example Domain"), Some("e1"), None, None, None),
      MockNode("paragraph", Some("This domain is for use in illustrative examples"), Some("e2"), None, None, None),
      MockNode("link", Some("More information..."), Some("e3"), None, None, Some(true))
    ]), None, None)
  }

  function NotFoundError(tabId: string): ApiError
  {
    NotFound("Tab not found: " + tabId)
  }

  /** The 1x1 PNG returned by every screenshot, before its base64 encoding. */
  const TinyPng: seq<bv8> := [
    0x89, 0x50, 0x4E, 0x47, 0x0D, 0x0A, 0x1A, 0x0A, 0x00, 0x00, 0x00, 0x0D, 0x49, 0x48, 0x44, 0x52,
    0x00, 0x00, 0x00, 0x01, 0x00, 0x00, 0x00, 0x01, 0x08, 0x06, 0x00, 0x00, 0x00, 0x1F, 0x15, 0xC4,
    0x89, 0x00, 0x00, 0x00, 0x0A, 0x49, 0x44, 0x41, 0x54, 0x78, 0x9C, 0x63, 0x00, 0x01, 0x00, 0x00,
    0x05, 0x00, 0x01, 0x0D, 0x0A, 0x2D, 0xB4, 0x00, 0x00, 0x00, 0x00, 0x49, 0x45, 0x4E, 0x44, 0xAE,
    0x42, 0x60, 0x82]

  /** `PORT` from the environment when it parses as a u16, else 9377. */
  function ServerPort(env: Option<string>): (port: nat)
    ensures port <= U16_MAX
    ensures env.Some? && ParseUnsigned(env.value, U16_MAX).Some? ==> port == ParseUnsigned(env.value, U16_MAX).value
    ensures env.None? || ParseUnsigned(env.value, U16_MAX).None? ==> port == 9377
  {
    if env.Some? then ParseUnsigned(env.value, U16_MAX).UnwrapOr(9377) else 9377
  }

  lemma ServerPortExamples()
    ensures ServerPort(Some("8080")) == 8080
    ensures ServerPort(Some("70000")) == 9377
    ensures ServerPort(None) == 9377
  {
    assert DigitsValue("8080") == 8080 by {
      assert "8080"[..3] == "808" && "808"[..2] == "80" && "80"[..1] == "8";
    }
    assert DigitsValue("70000") == 70000 by {
      assert "70000"[..4] == "7000" && "7000"[..3] == "700" && "700"[..2] == "70" && "70"[..1] == "7";
    }
  }

  /** The shared table of tabs. */
  class AppState {
    var tabs: map<string, TabState>

    constructor ()
      ensures tabs == map[]
    {
      tabs := map[];
    }

    /** The tab id for a UUID: "tab-" followed by its Display form. */
    static function TabId(uuid: seq<bv8>): (id: string)
      requires |uuid| == 16
      ensures |id| == 40 && id[..4] == "tab-"
    {
      UuidStringLayout(uuid);
      "tab-" + UuidString(uuid)
    }

    /**
     * `create_tab`: store the request's URL and session key under
     * "tab-<uuid>" and answer with that id and URL.
     */
    method CreateTab(uuid: seq<bv8>, url: string, sessionKey: string) returns (id: string, respUrl: string)
      requires |uuid| == 16
      modifies this
      ensures id == TabId(uuid) && respUrl == url
      ensures tabs == old(tabs)[id := TabState(url, sessionKey)]
    {
      id := TabId(uuid);
      tabs := tabs[id := TabState(url, sessionKey)];
      respUrl := url;
    }

    /** `get_snapshot`: the fixed mock tree for a known tab. */
    function GetSnapshot(tabId: string): (r: Result<MockNode, ApiError>)
      reads this
      ensures tabId !in tabs <==> r == Err(NotFoundError(tabId))
      ensures tabId in tabs ==> r == Ok(MockTree())
    {
      if tabId !in tabs then Err(NotFoundError(tabId)) else Ok(MockTree())
    }

    /** `click_element`: acknowledges the reference for a known tab. */
    function ClickElement(tabId: string, elementRef: string): (r: Result<StatusBody, ApiError>)
      reads this
      ensures tabId !in tabs <==> r == Err(NotFoundError(tabId))
      ensures tabId in tabs ==> r == Ok(StatusBody("ok", "Clicked " + elementRef))
    {
      if tabId !in tabs then Err(NotFoundError(tabId)) else Ok(StatusBody("ok", "Clicked " + elementRef))
    }

    /** `type_text`: acknowledges the reference for a known tab. */
    function TypeText(tabId: string, elementRef: string, text: string): (r: Result<StatusBody, ApiError>)
      reads this
      ensures tabId !in tabs <==> r == Err(NotFoundError(tabId))
      ensures tabId in tabs ==> r == Ok(StatusBody("ok", "Typed into " + elementRef))
    {
      if tabId !in tabs then Err(NotFoundError(tabId)) else Ok(StatusBody("ok", "Typed into " + elementRef))
    }

    /** `screenshot`: the fixed PNG for a known tab. */
    function Screenshot(tabId: string): (r: Result<seq<bv8>, ApiError>)
      reads this
      ensures tabId !in tabs <==> r == Err(NotFoundError(tabId))
      ensures tabId in tabs ==> r == Ok(TinyPng)
    {
      if tabId !in tabs then Err(NotFoundError(tabId)) else Ok(TinyPng)
    }

    /**
     * `navigate`: a known tab gets the new URL and keeps its session key;
     * other tabs are untouched. An unknown id changes nothing.
     */
    method Navigate(tabId: string, url: string) returns (r: Result<StatusBody, ApiError>)
      modifies this
      ensures tabId !in old(tabs) ==> r == Err(NotFoundError(tabId)) && tabs == old(tabs)
      ensures tabId in old(tabs) ==> (r == Ok(UrlBody("ok", url))
        && tabs == old(tabs)[tabId := TabState(url, old(tabs)[tabId].sessionKey)])
      ensures tabs.Keys == old(tabs).Keys
      ensures forall k :: k in tabs && k != tabId ==> tabs[k] == old(tabs)[k]
    {
      if tabId !in tabs {
        return Err(NotFoundError(tabId));
      }
      tabs := tabs[tabId := tabs[tabId].(url := url)];
      r := Ok(UrlBody("ok", url));
    }
  }
}
