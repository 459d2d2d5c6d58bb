/**
 * The session manager's decisions: the key table behind `press_key`, the
 * history entry `go_back` and `go_forward` navigate to, the page listing and
 * the active page, the reply `eval_on_page` takes from the page's websocket,
 * and the status of a profile's session.
 */
module Session {
  import opened Wrappers
  import Text
  import opened Json
  import opened Errors
  import ExtensionBackend

  /** A CDP command: its method name and parameters. */
  datatype Command = Command(name: string, params: Json)

  // ---------------------------------------------------------------------
  // press_key
  // ---------------------------------------------------------------------

  /** The keys `press_key` knows by name. */
  datatype NamedKey =
    | Enter | Tab | Escape | Backspace | Delete
    | ArrowUp | ArrowDown | ArrowLeft | ArrowRight
    | Home | End | PageUp | PageDown | Space

  /** The CDP key code of a named key. */
  function KeyCode(k: NamedKey): string
  {
    match k
    case Enter => "Enter"
    case Tab => "Tab"
    case Escape => "Escape"
    case Backspace => "Backspace"
    case Delete => "Delete"
    case ArrowUp => "ArrowUp"
    case ArrowDown => "ArrowDown"
    case ArrowLeft => "ArrowLeft"
    case ArrowRight => "ArrowRight"
    case Home => "Home"
    case End => "End"
    case PageUp => "PageUp"
    case PageDown => "PageDown"
    case Space => "Space"
  }

  /** The text a named key types: carriage return, tab, a blank, or nothing. */
  function KeyText(k: NamedKey): string
  {
    match k
    case Enter => "\r"
    case Tab => "\t"
    case Space => " "
    case _ => ""
  }

  /** The `match` arms of `press_key`, on the already lower-cased key. */
  function KeyFromAlias(a: string): Option<NamedKey>
  {
    if a == "enter" || a == "return" then Some(Enter)
    else if a == "tab" then Some(Tab)
    else if a == "escape" || a == "esc" then Some(Escape)
    else if a == "backspace" then Some(Backspace)
    else if a == "delete" then Some(Delete)
    else if a == "arrowup" || a == "up" then Some(ArrowUp)
    else if a == "arrowdown" || a == "down" then Some(ArrowDown)
    else if a == "arrowleft" || a == "left" then Some(ArrowLeft)
    else if a == "arrowright" || a == "right" then Some(ArrowRight)
    else if a == "home" then Some(Home)
    else if a == "end" then Some(End)
    else if a == "pageup" then Some(PageUp)
    else if a == "pagedown" then Some(PageDown)
    else if a == "space" then Some(Space)
    else None
  }

  /** The names each key is known by, as a table. */
  function KeyAliases(k: NamedKey): seq<string>
  {
    match k
    case Enter => ["enter", "return"]
    case Tab => ["tab"]
    case Escape => ["escape", "esc"]
    case Backspace => ["backspace"]
    case Delete => ["delete"]
    case ArrowUp => ["arrowup", "up"]
    case ArrowDown => ["arrowdown", "down"]
    case ArrowLeft => ["arrowleft", "left"]
    case ArrowRight => ["arrowright", "right"]
    case Home => ["home"]
    case End => ["end"]
    case PageUp => ["pageup"]
    case PageDown => ["pagedown"]
    case Space => ["space"]
  }

  lemma EditingAliasesMatch(a: string, k: NamedKey)
    requires k in {Enter, Tab, Escape, Backspace, Delete}
    ensures KeyFromAlias(a) == Some(k) <==> a in KeyAliases(k)
  {
  }

  lemma ArrowAliasesMatch(a: string, k: NamedKey)
    requires k in {ArrowUp, ArrowDown, ArrowLeft, ArrowRight}
    ensures KeyFromAlias(a) == Some(k) <==> a in KeyAliases(k)
  {
  }

  lemma PagingAliasesMatch(a: string, k: NamedKey)
    requires k in {Home, End, PageUp, PageDown, Space}
    ensures KeyFromAlias(a) == Some(k) <==> a in KeyAliases(k)
  {
  }

  /** A lower-case name selects a key exactly when it is one of the table's names for it. */
  lemma KeyFromAliasTable(a: string, k: NamedKey)
    ensures KeyFromAlias(a) == Some(k) <==> a in KeyAliases(k)
  {
    if k in {Enter, Tab, Escape, Backspace, Delete} {
      EditingAliasesMatch(a, k);
    } else if k in {ArrowUp, ArrowDown, ArrowLeft, ArrowRight} {
      ArrowAliasesMatch(a, k);
    } else {
      PagingAliasesMatch(a, k);
    }
  }

  /** The key code and text `press_key` sends for the key as given. */
  function KeyEvent(key: string): (string, string)
  {
    match KeyFromAlias(Text.Lower(key))
    case Some(k) => (KeyCode(k), KeyText(k))
    case None => (key, key)
  }

  /** A key named in any case by one of its aliases is sent as that key's code and text. */
  lemma KeyEventNamed(key: string, k: NamedKey)
    requires Text.Lower(key) in KeyAliases(k)
    ensures KeyEvent(key) == (KeyCode(k), KeyText(k))
  {
    KeyFromAliasTable(Text.Lower(key), k);
  }

  /** A key that is no alias in any case is passed through unchanged, as both code and text. */
  lemma KeyEventUnknown(key: string)
    requires forall k :: Text.Lower(key) !in KeyAliases(k)
    ensures KeyEvent(key) == (key, key)
  {
    forall k: NamedKey
      ensures KeyFromAlias(Text.Lower(key)) != Some(k)
    {
      KeyFromAliasTable(Text.Lower(key), k);
    }
  }

  /** For a named key the case of the name does not matter; for any other key it is kept. */
  lemma KeyEventCase(key: string)
    ensures KeyFromAlias(Text.Lower(key)).Some? ==> KeyEvent(key) == KeyEvent(Text.Lower(key))
    ensures KeyFromAlias(Text.Lower(key)).None? ==> KeyEvent(key).0 == key
  {
    Text.LowerIdempotent(key);
  }

  /** The parameters of the key-down event: its type, the key code and the text typed. */
  function KeyDownParams(code: string, text: string): (p: Json)
    ensures Get(p, "type") == Some(JStr("keyDown")) && Get(p, "key") == Some(JStr(code))
    ensures Get(p, "text") == Some(JStr(text))
  {
    var p := JObj([("type", JStr("keyDown")), ("key", JStr(code)), ("text", JStr(text))]);
    assert |"type"| != |"key"|;
    assert "type"[1] != "text"[1];
    FindFieldAt(p.fields, "key", 1);
    FindFieldAt(p.fields, "text", 2);
    p
  }

  /** The parameters of the key-up event: its type and the key code, with no text. */
  function KeyUpParams(code: string): (p: Json)
    ensures Get(p, "type") == Some(JStr("keyUp")) && Get(p, "key") == Some(JStr(code))
    ensures Get(p, "text") == None
  {
    var p := JObj([("type", JStr("keyUp")), ("key", JStr(code))]);
    assert |"type"| != |"key"| && |"key"| != |"text"|;
    assert "type"[1] != "text"[1];
    FindFieldAt(p.fields, "key", 1);
    p
  }

  /** The two `Input.dispatchKeyEvent` commands `press_key` sends: key down with its text, then key up. */
  function PressKeyCommands(key: string): (r: seq<Command>)
    ensures |r| == 2
    ensures r[0].name == "Input.dispatchKeyEvent" && r[1].name == "Input.dispatchKeyEvent"
    ensures Get(r[0].params, "type") == Some(JStr("keyDown")) && Get(r[1].params, "type") == Some(JStr("keyUp"))
    ensures Get(r[0].params, "key") == Get(r[1].params, "key") == Some(JStr(KeyEvent(key).0))
    ensures Get(r[0].params, "text") == Some(JStr(KeyEvent(key).1)) && Get(r[1].params, "text") == None
  {
    var event := KeyEvent(key);
    [Command("Input.dispatchKeyEvent", KeyDownParams(event.0, event.1)),
     Command("Input.dispatchKeyEvent", KeyUpParams(event.0))]
  }

  // ---------------------------------------------------------------------
  // go_back / go_forward
  // ---------------------------------------------------------------------

  const TWO_64: int := 0x1_0000_0000_0000_0000
  const I64_MIN: int := -0x8000_0000_0000_0000
  const I64_MAX: int := 0x7FFF_FFFF_FFFF_FFFF

  /** `x as usize` for an `i64`: a negative value wraps around to the top of the range. */
  function ToUsize(x: int): (r: nat)
    requires I64_MIN <= x <= I64_MAX
    ensures x >= 0 ==> r == x
    ensures x < 0 ==> r >= 0x8000_0000_0000_0000
  {
    if x >= 0 then x else x + TWO_64
  }

  /** `Page.getNavigationHistory`'s `currentIndex`, 0 when it is missing or not an `i64`. */
  function CurrentIndex(history: Json): (r: int)
    ensures I64_MIN <= r <= I64_MAX
  {
    AsI64(Get(history, "currentIndex")).UnwrapOr(0)
  }

  /** The id of the entry at a slot of the history's entry array, when there is one. */
  function EntryIdAt(history: Json, slot: nat): Option<int>
  {
    match AsArray(Get(history, "entries"))
    case None => None
    case Some(entries) => if slot < |entries| then AsI64(Get(entries[slot], "id")) else None
  }

  /** The entry id `go_back` navigates to: the one before the current entry, only when the index is positive. */
  function BackTarget(history: Json): (r: Option<int>)
    ensures r.Some? ==> CurrentIndex(history) > 0
    ensures CurrentIndex(history) > 0 ==> r == EntryIdAt(history, CurrentIndex(history) - 1)
  {
    var c := CurrentIndex(history);
    if c > 0 then EntryIdAt(history, c - 1) else None
  }

  /**
   * The slot `go_forward` reads: `current_index + 1` in `i64` arithmetic
   * (wrapping past `i64::MAX`), cast to `usize`.
   */
  function ForwardSlot(c: int): (r: nat)
    requires I64_MIN <= c <= I64_MAX
    ensures -1 <= c < I64_MAX ==> r == c + 1
  {
    var next := if c == I64_MAX then I64_MIN else c + 1;
    ToUsize(next)
  }

  /** The entry id `go_forward` navigates to: the one after the current entry, whatever the index. */
  function ForwardTarget(history: Json): (r: Option<int>)
  {
    EntryIdAt(history, ForwardSlot(CurrentIndex(history)))
  }

  /** The command either navigation sends once it has chosen an entry. */
  function NavigateToEntry(entryId: int): (r: Command)
    ensures r.name == "Page.navigateToHistoryEntry" && Get(r.params, "entryId") == Some(JNum(entryId))
  {
    Command("Page.navigateToHistoryEntry", JObj([("entryId", JNum(entryId))]))
  }

  /** A history in the shape the browser reports it: the current index and the entries. */
  function History(current: int, entries: seq<Json>): (h: Json)
  {
    JObj([("currentIndex", JNum(current)), ("entries", JArr(entries))])
  }

  /** An entry of a history: its id and URL. */
  function Entry(id: int, url: string): Json
  {
    JObj([("id", JNum(id)), ("url", JStr(url))])
  }

  lemma HistoryFields(current: int, entries: seq<Json>)
    requires I64_MIN <= current <= I64_MAX
    ensures CurrentIndex(History(current, entries)) == current
    ensures AsArray(Get(History(current, entries), "entries")) == Some(entries)
  {
    var h := History(current, entries);
    assert FindField(h.fields, "currentIndex") == Some(0);
    assert h.fields[0].0 != "entries" by { assert "currentIndex"[0] != "entries"[0]; }
    FindFieldAt(h.fields, "entries", 1);
  }

  lemma EntryIdOf(id: int, url: string)
    requires I64_MIN <= id <= I64_MAX
    ensures AsI64(Get(Entry(id, url), "id")) == Some(id)
  {
    assert FindField(Entry(id, url).fields, "id") == Some(0);
  }

  /**
   * On a history whose entries all carry ids, `go_back` goes to the entry
   * before the current one exactly when there is one, and `go_forward` to
   * the entry after it exactly when there is one.
   */
  lemma NavigationTargets(current: nat, ids: seq<int>, urls: seq<string>)
    requires current <= I64_MAX && |ids| == |urls|
    requires forall i :: 0 <= i < |ids| ==> I64_MIN <= ids[i] <= I64_MAX
    ensures var h := History(current, seq(|ids|, i requires 0 <= i < |ids| => Entry(ids[i], urls[i])));
      && (BackTarget(h).Some? <==> 0 < current <= |ids|)
      && (0 < current <= |ids| ==> BackTarget(h) == Some(ids[current - 1]))
      && (current < I64_MAX ==> (ForwardTarget(h).Some? <==> current + 1 < |ids|))
      && (current + 1 < |ids| ==> ForwardTarget(h) == Some(ids[current + 1]))
  {
    var entries := seq(|ids|, i requires 0 <= i < |ids| => Entry(ids[i], urls[i]));
    var h := History(current, entries);
    HistoryFields(current, entries);
    forall i | 0 <= i < |ids|
      ensures EntryIdAt(h, i) == Some(ids[i])
    {
      EntryIdOf(ids[i], urls[i]);
    }
  }

  /** Going back from entry c and then forward from c - 1 returns to entry c. */
  lemma BackThenForward(c: nat, entries: seq<Json>)
    requires 0 < c < |entries| && c <= I64_MAX
    requires AsI64(Get(entries[c - 1], "id")).Some?
    ensures BackTarget(History(c, entries)) == AsI64(Get(entries[c - 1], "id"))
    ensures ForwardTarget(History(c - 1, entries)) == AsI64(Get(entries[c], "id"))
  {
    HistoryFields(c, entries);
    HistoryFields(c - 1, entries);
  }

  /** With no usable `currentIndex`, `go_back` stays put while `go_forward` goes to entry 1. */
  lemma MissingIndex(entries: seq<Json>)
    ensures BackTarget(JObj([("entries", JArr(entries))])) == None
    ensures ForwardTarget(JObj([("entries", JArr(entries))])) == EntryIdAt(JObj([("entries", JArr(entries))]), 1)
  {
    var h := JObj([("entries", JArr(entries))]);
    assert FindField(h.fields, "currentIndex") == None;
  }

  // ---------------------------------------------------------------------
  // Pages
  // ---------------------------------------------------------------------

  /** An entry of CDP's `/json/list`. */
  datatype PageInfo = PageInfo(id: string, title: string, url: string, pageType: string, webSocketDebuggerUrl: Option<string>)

  /** The session state saved per profile. */
  datatype SessionState = SessionState(profileName: string, cdpPort: nat, pid: Option<nat>, cdpUrl: string)

  /** The outcome of asking the browser for `/json/list`. */
  datatype Listing =
    | RequestFailed(reason: string)
    | BodyUnreadable(reason: string)
    | Listed(pages: seq<PageInfo>)

  /** The listing with only its real pages (no extensions, workers and the like), in order. */
  function PagesOnly(pages: seq<PageInfo>): (r: seq<PageInfo>)
    ensures |r| <= |pages|
    ensures forall p :: p in r ==> p in pages && p.pageType == "page"
    ensures forall p :: p in pages && p.pageType == "page" ==> p in r
  {
    if pages == [] then []
    else (if pages[0].pageType == "page" then [pages[0]] else []) + PagesOnly(pages[1..])
  }

  /** Filtering a concatenation filters each part and keeps them in order. */
  lemma {:induction false} PagesOnlyAppend(a: seq<PageInfo>, b: seq<PageInfo>)
    ensures PagesOnly(a + b) == PagesOnly(a) + PagesOnly(b)
    decreases |a|
  {
    if a == [] {
      assert a + b == b;
    } else {
      assert (a + b)[0] == a[0];
      assert (a + b)[1..] == a[1..] + b;
      PagesOnlyAppend(a[1..], b);
    }
  }

  /** Filtering again changes nothing. */
  lemma {:induction false} PagesOnlyIdempotent(pages: seq<PageInfo>)
    ensures PagesOnly(PagesOnly(pages)) == PagesOnly(pages)
    decreases |pages|
  {
    if pages != [] {
      var head := if pages[0].pageType == "page" then [pages[0]] else [];
      PagesOnlyAppend(head, PagesOnly(pages[1..]));
      PagesOnlyIdempotent(pages[1..]);
    }
  }

  /** The first entry of the filtered listing is the first page of the listing. */
  lemma {:induction false} PagesOnlyHead(pages: seq<PageInfo>)
    ensures PagesOnly(pages) != [] <==> exists k :: 0 <= k < |pages| && pages[k].pageType == "page"
    ensures PagesOnly(pages) != [] ==> exists k :: (0 <= k < |pages| && pages[k] == PagesOnly(pages)[0]
      && pages[k].pageType == "page" && forall j :: 0 <= j < k ==> pages[j].pageType != "page")
    decreases |pages|
  {
    if pages != [] {
      if pages[0].pageType == "page" {
        assert pages[0] == PagesOnly(pages)[0];
      } else {
        PagesOnlyHead(pages[1..]);
        if PagesOnly(pages) != [] {
          var k :| 0 <= k < |pages[1..]| && pages[1..][k] == PagesOnly(pages[1..])[0]
            && pages[1..][k].pageType == "page" && forall j :: 0 <= j < k ==> pages[1..][j].pageType != "page";
          assert pages[k + 1] == PagesOnly(pages)[0];
          assert forall j :: 0 <= j < k + 1 ==> pages[j].pageType != "page" by {
            forall j | 0 <= j < k + 1 ensures pages[j].pageType != "page" {
              if j > 0 { assert pages[j] == pages[1..][j - 1]; }
            }
          }
        }
        if exists k :: 0 <= k < |pages| && pages[k].pageType == "page" {
          var k :| 0 <= k < |pages| && pages[k].pageType == "page";
          assert pages[1..][k - 1] == pages[k];
        }
      }
    }
  }

  /**
   * `get_pages`: BrowserNotRunning without saved state for the profile, the
   * request and decoding failures as CdpConnectionFailed, and otherwise
   * the pages of the listing.
   */
  function GetPages(state: Option<SessionState>, listing: Listing): (r: Result<seq<PageInfo>, ActionbookError>)
    ensures state.None? ==> r == Err(BrowserNotRunning)
    ensures state.Some? && listing.RequestFailed? ==> r == Err(CdpConnectionFailed("Failed to get pages: " + listing.reason))
    ensures state.Some? && listing.BodyUnreadable? ==> r == Err(CdpConnectionFailed("Failed to parse pages: " + listing.reason))
    ensures r.Ok? ==> state.Some? && listing.Listed? && r.value == PagesOnly(listing.pages)
  {
    if state.None? then Err(BrowserNotRunning)
    else match listing
      case RequestFailed(e) => Err(CdpConnectionFailed("Failed to get pages: " + e))
      case BodyUnreadable(e) => Err(CdpConnectionFailed("Failed to parse pages: " + e))
      case Listed(pages) => Ok(PagesOnly(pages))
  }

  /** `get_active_page_info`: the first page, or BrowserNotRunning when there is none. */
  function ActivePageInfo(pages: Result<seq<PageInfo>, ActionbookError>): (r: Result<PageInfo, ActionbookError>)
    ensures pages.Err? ==> r == Err(pages.error)
    ensures pages.Ok? && pages.value == [] ==> r == Err(BrowserNotRunning)
    ensures pages.Ok? && pages.value != [] ==> r == Ok(pages.value[0])
  {
    match pages
    case Err(e) => Err(e)
    case Ok(ps) => if ps == [] then Err(BrowserNotRunning) else Ok(ps[0])
  }

  /**
   * With saved state and a listing, the active page is the first entry of
   * type "page", and there is none exactly when no entry is a page.
   */
  lemma ActivePageIsFirstPage(state: SessionState, pages: seq<PageInfo>)
    ensures var r := ActivePageInfo(GetPages(Some(state), Listed(pages)));
      && (r == Err(BrowserNotRunning) <==> forall k :: 0 <= k < |pages| ==> pages[k].pageType != "page")
      && (r.Ok? ==> exists k :: (0 <= k < |pages| && pages[k] == r.value && r.value.pageType == "page"
            && forall j :: 0 <= j < k ==> pages[j].pageType != "page"))
  {
    PagesOnlyHead(pages);
  }

  // ---------------------------------------------------------------------
  // eval_on_page
  // ---------------------------------------------------------------------

  /** The `Runtime.evaluate` request, sent with id 1, asking for the value itself. */
  function EvaluateRequest(expression: string): (r: Json)
    ensures Get(r, "id") == Some(JNum(1)) && Get(r, "method") == Some(JStr("Runtime.evaluate"))
  {
    var r := JObj([("id", JNum(1)), ("method", JStr("Runtime.evaluate")),
      ("params", JObj([("expression", JStr(expression)), ("returnByValue", JBool(true))]))]);
    assert r.fields[0].0 != "method" by { assert |"id"| != |"method"|; }
    FindFieldAt(r.fields, "method", 1);
    r
  }

  /** A frame read from the page's websocket: text (decoded, or not JSON), another kind, or a transport error. */
  datatype Frame =
    | TextFrame(body: Result<Json, string>)
    | OtherFrame
    | SocketError(reason: string)

  /**
   * The answer carried by the reply to request 1: `result.result.value`,
   * else `result.result`, else the `error` as a JavaScriptError, else null.
   */
  function ReplyValue(reply: Json): (r: Result<Json, ActionbookError>)
    ensures Get(reply, "result").Some? && Get(Get(reply, "result").value, "result").Some? ==>
      var inner := Get(Get(reply, "result").value, "result").value;
      r == Ok(if Get(inner, "value").Some? then Get(inner, "value").value else inner)
    ensures r.Err? <==> (Get(reply, "result").None? || Get(Get(reply, "result").value, "result").None?)
                        && Get(reply, "error").Some?
    ensures r.Err? ==> r.error == JavaScriptError(ExtensionBackend.Serialize(Get(reply, "error").value))
    ensures ((Get(reply, "result").None? || Get(Get(reply, "result").value, "result").None?)
             && Get(reply, "error").None?) ==> r == Ok(JNull)
  {
    var outer := Get(reply, "result");
    var inner := if outer.Some? then Get(outer.value, "result") else None;
    if inner.Some? then
      match Get(inner.value, "value")
      case Some(v) => Ok(v)
      case None => Ok(inner.value)
    else match Get(reply, "error")
      case Some(e) => Err(JavaScriptError(ExtensionBackend.Serialize(e)))
      case None => Ok(JNull)
  }

  /** What one frame decides: nothing (keep reading), or the call's outcome. */
  function FrameOutcome(f: Frame): (r: Option<Result<Json, ActionbookError>>)
    ensures f.OtherFrame? ==> r.None?
    ensures f.SocketError? ==> r == Some(Err(Other("WebSocket error: " + f.reason)))
    ensures f.TextFrame? && f.body.Err? ==> r == Some(Err(JsonError(f.body.error)))
    ensures f.TextFrame? && f.body.Ok? ==>
      (r.Some? <==> Get(f.body.value, "id") == Some(JNum(1)))
    ensures r.Some? && f.TextFrame? && f.body.Ok? ==> r.value == ReplyValue(f.body.value)
  {
    match f
    case OtherFrame => None
    case SocketError(e) => Some(Err(Other("WebSocket error: " + e)))
    case TextFrame(Err(e)) => Some(Err(JsonError(e)))
    case TextFrame(Ok(reply)) =>
      if Get(reply, "id") == Some(JNum(1)) then Some(ReplyValue(reply)) else None
  }

  const NoResponse: ActionbookError := Other("No response received")

  /** The outcome of reading a stream of frames: the first decisive frame's, or "No response received". */
  function ReadReply(frames: seq<Frame>): Result<Json, ActionbookError>
  {
    if frames == [] then Err(NoResponse)
    else match FrameOutcome(frames[0])
      case Some(r) => r
      case None => ReadReply(frames[1..])
  }

  /** Reading stops at the first frame that decides; frames after it are never looked at. */
  lemma {:induction false} ReadReplyFirstDecisive(frames: seq<Frame>, k: nat)
    requires k < |frames| && FrameOutcome(frames[k]).Some?
    requires forall j :: 0 <= j < k ==> FrameOutcome(frames[j]).None?
    ensures ReadReply(frames) == FrameOutcome(frames[k]).value
    decreases k
  {
    if k > 0 {
      assert forall j :: 0 <= j < k - 1 ==> frames[1..][j] == frames[j + 1];
      ReadReplyFirstDecisive(frames[1..], k - 1);
    }
  }

  /** A stream with no decisive frame ends in "No response received". */
  lemma {:induction false} ReadReplyNoneDecisive(frames: seq<Frame>)
    requires forall j :: 0 <= j < |frames| ==> FrameOutcome(frames[j]).None?
    ensures ReadReply(frames) == Err(NoResponse)
    decreases |frames|
  {
    if frames != [] {
      assert forall j :: 0 <= j < |frames| - 1 ==> frames[1..][j] == frames[j + 1];
      ReadReplyNoneDecisive(frames[1..]);
    }
  }

  /** Frames before the reply that decide nothing do not change the outcome. */
  lemma {:induction false} ReadReplySkips(skipped: seq<Frame>, rest: seq<Frame>)
    requires forall j :: 0 <= j < |skipped| ==> FrameOutcome(skipped[j]).None?
    ensures ReadReply(skipped + rest) == ReadReply(rest)
    decreases |skipped|
  {
    if skipped != [] {
      assert (skipped + rest)[0] == skipped[0];
      assert (skipped + rest)[1..] == skipped[1..] + rest;
      assert FrameOutcome(skipped[0]).None?;
      assert ReadReply(skipped + rest) == ReadReply(skipped[1..] + rest);
      assert forall j :: 0 <= j < |skipped| - 1 ==> skipped[1..][j] == skipped[j + 1];
      ReadReplySkips(skipped[1..], rest);
    } else {
      assert skipped + rest == rest;
    }
  }

  /**
   * `eval_on_page`: the active page's websocket URL, the connection and the
   * send, each failing with its own error, then the frames read until the
   * reply to request 1.
   */
  method EvalOnPage(page: Result<PageInfo, ActionbookError>, connectError: Option<string>,
                    sendError: Option<string>, frames: seq<Frame>)
    returns (r: Result<Json, ActionbookError>)
    ensures page.Err? ==> r == Err(page.error)
    ensures page.Ok? && page.value.webSocketDebuggerUrl.None? ==> r == Err(CdpConnectionFailed("No WebSocket URL"))
    ensures page.Ok? && page.value.webSocketDebuggerUrl.Some? && connectError.Some? ==>
      r == Err(CdpConnectionFailed("WebSocket connection failed: " + connectError.value))
    ensures page.Ok? && page.value.webSocketDebuggerUrl.Some? && connectError.None? && sendError.Some? ==>
      r == Err(Other("Failed to send command: " + sendError.value))
    ensures page.Ok? && page.value.webSocketDebuggerUrl.Some? && connectError.None? && sendError.None? ==>
      r == ReadReply(frames)
  {
    if page.Err? {
      return Err(page.error);
    }
    if page.value.webSocketDebuggerUrl.None? {
      return Err(CdpConnectionFailed("No WebSocket URL"));
    }
    if connectError.Some? {
      return Err(CdpConnectionFailed("WebSocket connection failed: " + connectError.value));
    }
    if sendError.Some? {
      return Err(Other("Failed to send command: " + sendError.value));
    }
    var i := 0;
    while i < |frames|
      invariant 0 <= i <= |frames|
      invariant ReadReply(frames[i..]) == ReadReply(frames)
    {
      assert frames[i..][0] == frames[i];
      assert frames[i..][1..] == frames[i + 1..];
      var outcome := FrameOutcome(frames[i]);
      if outcome.Some? {
        return outcome.value;
      }
      i := i + 1;
    }
    return Err(NoResponse);
  }

  // ---------------------------------------------------------------------
  // get_status
  // ---------------------------------------------------------------------

  datatype SessionStatus =
    | Running(profile: string, cdpPort: nat, cdpUrl: string)
    | Stale(profile: string)
    | NotRunning(profile: string)

  /** The profile a command addresses: the one named, or "default". */
  function ProfileName(name: Option<string>): (r: string)
    ensures name.Some? ==> r == name.value
    ensures name.None? ==> r == "default"
  {
    name.UnwrapOr("default")
  }

  /**
   * `get_status`: Running when the profile has saved state whose CDP port
   * answers, Stale when it has state that does not, NotRunning without
   * state; `alive` stands for the probe of `/json/version` on a port.
   */
  function GetStatus(name: Option<string>, state: Option<SessionState>, alive: nat -> bool): (r: SessionStatus)
    ensures r.profile == ProfileName(name)
    ensures r.Running? <==> state.Some? && alive(state.value.cdpPort)
    ensures r.Stale? <==> state.Some? && !alive(state.value.cdpPort)
    ensures r.NotRunning? <==> state.None?
    ensures r.Running? ==> r.cdpPort == state.value.cdpPort && r.cdpUrl == state.value.cdpUrl
  {
    var profile := ProfileName(name);
    match state
    case None => NotRunning(profile)
    case Some(s) => if alive(s.cdpPort) then Running(profile, s.cdpPort, s.cdpUrl) else Stale(profile)
  }

  /** Naming no profile and naming "default" give the same status. */
  lemma StatusDefaultProfile(state: Option<SessionState>, alive: nat -> bool)
    ensures GetStatus(None, state, alive) == GetStatus(Some("default"), state, alive)
  {
  }
}
