# actionbook core, modelled in Dafny

actionbook is a browser-automation command-line tool: it launches or attaches
to a Chromium browser (or drives it through a Chrome extension over a local
WebSocket bridge), and it ships a small Python tab server built on Camoufox plus a
Rust mock of that server. This project models the sequential heart of those
programs and proves what they promise:

- the Camoufox tab manager: tabs, the session-to-tab map, and the per-tab
  reference counter and reference-to-selector table filled while an
  accessibility tree is projected (`CamoufoxBrowser`);
- the mock REST server's tab map and its UUID version-4 fix-up and text form
  (`MockServer`);
- the URL, profile, cookie-URL and CDP-endpoint normalisers and the
  accessibility-tree text renderer of the `browser` command (`BrowserCommands`);
- the extension bridge: CDP method risk levels, the WebSocket Origin check,
  the PID and port files, and the pending-request table (`ExtensionBridge`);
- the extension backend: JavaScript string escaping, `tab:N` identifiers, the
  connect-retry policy, the cookie filter and result extraction
  (`ExtensionBackend`), and PID-for-port resolution (`ExtensionCommands`);
- Chrome native-messaging framing, responses and the host manifest
  (`NativeMessaging`);
- configuration, profiles and the `config`, `profile` and `setup` commands
  (`Config`, `ProfileConfig`, `ProfileCommands`, `ConfigCommands`, `SetupMode`,
  `ApiKeySetup`, `BrowserSetup`);
- stealth option parsing, fingerprint tables, the launcher's command line,
  CDP session helpers, browser discovery, API types and the extension
  installer's download and unzip guards (`Stealth`, `Fingerprint`, `Launcher`,
  `Session`, `Discovery`, `ApiTypes`, `ExtensionInstaller`).

`Wrappers`, `Text` and `Json` are shared helpers: `Option`/`Result`,
string functions (trimming of Unicode whitespace, ASCII lower-casing, decimal
formatting and parsing) and a
JSON value with ordered object fields.

State the source mutates in place is a Dafny `class`: the tab manager and its
tabs, the mock server's state, the bridge state, the configuration, the
native-messaging streams, the files written by `setup`, and the disk the
installer unpacks into. Page loads, clicks, process liveness, file presence
and random draws are parameters (outcomes or oracle functions) of the
operations that use them.

## Model

| member | source | states |
|---|---|---|
| CamoufoxBrowser.Status | packages/actionbook-rs/python/camoufox-server/browser.py:81-83 | every failure the manager raises carries status 400, 404 or 500 |
| CamoufoxBrowser.InteractiveIgnoresCase | packages/actionbook-rs/python/camoufox-server/browser.py:139-162 | the interactive-role test lower-cases the role first and rejects a missing role |
| CamoufoxBrowser.InteractiveExamples | packages/actionbook-rs/python/camoufox-server/browser.py:145-162 | "Button" and "LINK" count as interactive roles |
| CamoufoxBrowser.RefInjective | packages/actionbook-rs/python/camoufox-server/browser.py:121 | distinct counter values give distinct references `e<n>` |
| CamoufoxBrowser.Convert | packages/actionbook-rs/python/camoufox-server/browser.py:108-137 | a converted tree is present exactly when the input node is present (None maps to None) |
| CamoufoxBrowser.ConvertCounter | packages/actionbook-rs/python/camoufox-server/browser.py:119-120 | converting a tree raises the counter by exactly the number of named interactive nodes |
| CamoufoxBrowser.ConvertRefs | packages/actionbook-rs/python/camoufox-server/browser.py:119-135 | the references in the response tree are e(c+1), e(c+2), ... in pre-order, children in snapshot order |
| CamoufoxBrowser.ConvertKidsRefs | packages/actionbook-rs/python/camoufox-server/browser.py:130-135 | over the first i children, the references are the consecutive run for their qualifying nodes |
| CamoufoxBrowser.ConvertNodeFields | packages/actionbook-rs/python/camoufox-server/browser.py:113-135 | role defaults to "generic", the name is copied, a reference is attached iff the name is non-empty and the role interactive, and `children` is set iff the source list is non-empty |
| CamoufoxBrowser.ConvertKidsLength | packages/actionbook-rs/python/camoufox-server/browser.py:130-135 | None children are skipped and every present child yields exactly one converted node |
| CamoufoxBrowser.ConvertKidsStep | packages/actionbook-rs/python/camoufox-server/browser.py:131-135 | one child of the comprehension: a None child changes nothing, a present child appends its tree and binds its names after the earlier ones |
| CamoufoxBrowser.BindKeys | packages/actionbook-rs/python/camoufox-server/browser.py:120-127 | binding k names adds exactly the keys e(c+1) .. e(c+k) |
| CamoufoxBrowser.BindValues | packages/actionbook-rs/python/camoufox-server/browser.py:126-127 | the selector for the j-th bound name is `text="<name>"`, stored under e(c+j+1) |
| CamoufoxBrowser.BindKeeps | packages/actionbook-rs/python/camoufox-server/browser.py:127 | entries outside the new references keep their values |
| CamoufoxBrowser.BindAppend | packages/actionbook-rs/python/camoufox-server/browser.py:130-135 | binding the names of a then b equals binding a, then b numbered after a |
| CamoufoxBrowser.BindTable | packages/actionbook-rs/python/camoufox-server/browser.py:120-127 | on a table holding exactly e1 .. ec, binding k names gives exactly e1 .. e(c+k): the new keys are fresh, old entries keep their values, and each new key holds its name's selector |
| CamoufoxBrowser.Tab.constructor | packages/actionbook-rs/python/camoufox-server/browser.py:15-20 | a new tab has the given id and url, an empty reference table and counter 0 |
| CamoufoxBrowser.Tab.ConvertSnapshot | packages/actionbook-rs/python/camoufox-server/browser.py:108-137 | the recursive conversion returns the tree of `Convert`, raises the counter by the number of qualifying nodes and binds their selectors in pre-order |
| CamoufoxBrowser.Tab.Snapshot | packages/actionbook-rs/python/camoufox-server/browser.py:108-137 | converting keeps the tab valid: exactly k fresh keys appear, earlier entries are unchanged, and the table is the old one with the names bound in order |
| CamoufoxBrowser.Tab.Reset | packages/actionbook-rs/python/camoufox-server/browser.py:205-208 | a successful navigation sets the url, empties the reference table and resets the counter to 0 |
| CamoufoxBrowser.Manager.constructor | packages/actionbook-rs/python/camoufox-server/browser.py:26-31 | a new manager has no browser, no context, no tabs and no session entries |
| CamoufoxBrowser.Manager.GetTab | packages/actionbook-rs/python/camoufox-server/browser.py:76-85 | the stored tab, or a 404 naming the id and listing the known ids; nothing changes |
| CamoufoxBrowser.Manager.ActiveTabForSession | packages/actionbook-rs/python/camoufox-server/browser.py:87-89 | the tab id last recorded for the session key, if any |
| CamoufoxBrowser.Manager.CreateTab | packages/actionbook-rs/python/camoufox-server/browser.py:54-74 | on success the fresh tab is stored under its id and the session key points at it, replacing any earlier id; on a failed navigation a 500 is raised and neither map changes |
| CamoufoxBrowser.Manager.AccessibilityTree | packages/actionbook-rs/python/camoufox-server/browser.py:91-106 | an unknown tab is a 404; a snapshot call that raises is a 500 "Failed to get accessibility tree: <error>" and a missing snapshot the 500 wrapping "Failed to get accessibility snapshot", both with the tab untouched; otherwise the tab's counter and table grow as `Tab.Snapshot` states and the references come out in pre-order |
| CamoufoxBrowser.Manager.Click | packages/actionbook-rs/python/camoufox-server/browser.py:164-180 | an unknown tab is a 404; an unknown reference is a 400 listing the references, before the page is touched; otherwise the stored selector is clicked and a page failure is a 500 |
| CamoufoxBrowser.Manager.TypeText | packages/actionbook-rs/python/camoufox-server/browser.py:182-197 | like Click, with the text filled into the stored selector and a 400 that does not list the references |
| CamoufoxBrowser.Manager.Navigate | packages/actionbook-rs/python/camoufox-server/browser.py:199-211 | an unknown tab is a 404; a failed load leaves the tab unchanged; a successful one sets the url, empties the table and resets the counter |
| CamoufoxBrowser.Manager.Screenshot | packages/actionbook-rs/python/camoufox-server/browser.py:213-223 | an unknown tab is a 404, a raising capture the 500 "Screenshot failed: <error>", otherwise the captured PNG bytes |
| CamoufoxBrowser.Manager.Cleanup | packages/actionbook-rs/python/camoufox-server/browser.py:225-247 | all tabs are forgotten and the browser and context are closed even when closing fails; session entries are kept |
| MockServer.WithVersion4 | packages/actionbook-rs/src/bin/camoufox-server.rs:310-311 | the high nibble of byte 6 becomes 4 and the top two bits of byte 8 become 10 (RFC 4122 section 4.4); the other bits and every other byte are the random ones |
| MockServer.NewV4 | packages/actionbook-rs/src/bin/camoufox-server.rs:303-314 | the 16-byte buffer filled from the generator and then fixed up holds exactly WithVersion4 of the random bytes |
| MockServer.WithVersion4Idempotent | packages/actionbook-rs/src/bin/camoufox-server.rs:310-311 | fixing the version and variant fields a second time changes nothing |
| MockServer.HexDigit | packages/actionbook-rs/src/bin/camoufox-server.rs:321 | every nibble is written as a lowercase hexadecimal digit |
| MockServer.HexDigitValue | packages/actionbook-rs/src/bin/camoufox-server.rs:321 | a digit reads back as the nibble it was written from |
| MockServer.Hex2 | packages/actionbook-rs/src/bin/camoufox-server.rs:321 | `{:02x}` writes two lowercase hexadecimal digits |
| MockServer.Hex2RoundTrip | packages/actionbook-rs/src/bin/camoufox-server.rs:321 | the two digits of `{:02x}` read back as the byte, high nibble first |
| MockServer.HexBytes | packages/actionbook-rs/src/bin/camoufox-server.rs:321-326 | a run of bytes is written as two digits per byte, in byte order |
| MockServer.UuidStringLayout | packages/actionbook-rs/src/bin/camoufox-server.rs:317-329 | the text form has 36 characters, dashes at 8, 13, 18 and 23 (after bytes 4, 6, 8 and 10), and each byte's two digits in byte order (RFC 4122 section 3) |
| MockServer.UuidStringDigits | packages/actionbook-rs/src/bin/camoufox-server.rs:317-329 | every position other than the four dashes holds a lowercase hexadecimal digit |
| MockServer.UuidStringDecodes | packages/actionbook-rs/src/bin/camoufox-server.rs:317-329 | every byte can be read back from its two digits |
| MockServer.UuidStringInjective | packages/actionbook-rs/src/bin/camoufox-server.rs:317-329 | distinct UUIDs have distinct text forms |
| MockServer.MockTree | packages/actionbook-rs/src/bin/camoufox-server.rs:116-148 | the snapshot is a document node with three childless children |
| MockServer.ServerPort | packages/actionbook-rs/src/bin/camoufox-server.rs:262-265 | the port is PORT when it parses as a u16, else 9377 |
| MockServer.ServerPortExamples | packages/actionbook-rs/src/bin/camoufox-server.rs:262-265 | "8080" gives 8080; "70000", which overflows u16, and a missing PORT give 9377 |
| MockServer.AppState.constructor | packages/actionbook-rs/src/bin/camoufox-server.rs:36-40 | the server starts with no tabs |
| MockServer.AppState.CreateTab | packages/actionbook-rs/src/bin/camoufox-server.rs:79-102 | exactly one entry, keyed "tab-" followed by the UUID, is stored with the request's url and session key, and that id and url are returned |
| MockServer.AppState.GetSnapshot | packages/actionbook-rs/src/bin/camoufox-server.rs:105-153 | an unknown id is not-found; a known one gets the fixed mock tree; the map is only read |
| MockServer.AppState.ClickElement | packages/actionbook-rs/src/bin/camoufox-server.rs:156-173 | an unknown id is not-found; a known one is acknowledged as "Clicked <ref>" |
| MockServer.AppState.TypeText | packages/actionbook-rs/src/bin/camoufox-server.rs:176-196 | an unknown id is not-found; a known one is acknowledged as "Typed into <ref>" |
| MockServer.AppState.Screenshot | packages/actionbook-rs/src/bin/camoufox-server.rs:221-239 | an unknown id is not-found; a known one gets the fixed PNG |
| MockServer.AppState.Navigate | packages/actionbook-rs/src/bin/camoufox-server.rs:199-218 | a known tab gets the new url and keeps its session key, and other tabs are untouched; an unknown id is not-found and changes nothing |
| BrowserCommands.SchemeTailIff | packages/actionbook-rs/src/commands/browser.rs:410-421 | the scan after the first letter succeeds iff some ':' is preceded only by letters, digits, '+', '-' and '.' |
| BrowserCommands.ExplicitSchemeIff | packages/actionbook-rs/src/commands/browser.rs:403-424 | an explicit scheme is an ASCII letter, then scheme characters, then a ':' |
| BrowserCommands.HasExplicitScheme | packages/actionbook-rs/src/commands/browser.rs:403-424 | the early-return character loop answers exactly the closed-form scheme test |
| BrowserCommands.FindAny | packages/actionbook-rs/src/commands/browser.rs:388 | `find` of a character set gives the first position holding one of them, or none |
| BrowserCommands.Authority | packages/actionbook-rs/src/commands/browser.rs:388-389 | the authority is the longest prefix free of '/', '?' and '#' |
| BrowserCommands.HostPortIff | packages/actionbook-rs/src/commands/browser.rs:387-401 | host:port holds iff the authority has a last ':' with a non-empty host before it and a non-empty all-digit port after it |
| BrowserCommands.NormalizeRejectsOnlyBlank | packages/actionbook-rs/src/commands/browser.rs:261-269 | normalisation fails exactly for empty or whitespace-only input, with "Invalid URL: empty input" |
| BrowserCommands.NormalizeProtocolRelative | packages/actionbook-rs/src/commands/browser.rs:271-273 | a "//" prefix becomes "https://" |
| BrowserCommands.NormalizeKeepsSeparatorUrl | packages/actionbook-rs/src/commands/browser.rs:275-277 | input containing "://" is kept, trimmed |
| BrowserCommands.NormalizeHostPort | packages/actionbook-rs/src/commands/browser.rs:279-281 | host:digits such as "localhost:3000" gets "https://" |
| BrowserCommands.NormalizeHostPortShape | packages/actionbook-rs/src/commands/browser.rs:279-281 | any trimmed host:port input without "//" or "://" gets "https://" |
| BrowserCommands.NormalizeKeepsExplicitScheme | packages/actionbook-rs/src/commands/browser.rs:283-285 | an explicit "scheme:" such as "about:blank" or "mailto:x" is kept, trimmed |
| BrowserCommands.NormalizeWithoutColon | packages/actionbook-rs/src/commands/browser.rs:261-287 | anything else, such as a bare host, gets "https://" after trimming |
| BrowserCommands.WithSchemeProperties | packages/actionbook-rs/src/commands/browser.rs:271-287 | for trimmed non-empty input the choice is trimmed, carries "://" or an explicit scheme, and chooses itself again |
| BrowserCommands.NormalizeProperties | packages/actionbook-rs/src/commands/browser.rs:261-287 | every result has no surrounding whitespace, carries a scheme, and normalises to itself |
| BrowserCommands.ReusableIgnoresCaseAndSpace | packages/actionbook-rs/src/commands/browser.rs:289-291 | the blank-page test ignores ASCII case and surrounding whitespace |
| BrowserCommands.ReusableExactly | packages/actionbook-rs/src/commands/browser.rs:289-301 | a URL is reusable exactly when, trimmed and lower-cased, it is one of the five listed pages followed by any number of '/' |
| BrowserCommands.BlankKeyIgnoresSlashes | packages/actionbook-rs/src/commands/browser.rs:290-291 | '/' characters after a trimmed URL do not change the form compared against the table |
| BrowserCommands.ReusableIgnoresTrailingSlashes | packages/actionbook-rs/src/commands/browser.rs:289-301 | any number of '/' after the trimmed URL leaves the verdict as it was |
| BrowserCommands.EffectiveProfileName | packages/actionbook-rs/src/commands/browser.rs:241-255 | the trimmed CLI profile when non-blank, else the trimmed configured default when non-blank, else "actionbook"; never empty |
| BrowserCommands.ResolveCookieUrl | packages/actionbook-rs/src/commands/browser.rs:2737-2750 | an explicit domain gives "https://<domain without leading dots>/"; else the current URL when non-empty; else an error |
| BrowserCommands.SecondPiece | packages/actionbook-rs/src/commands/browser.rs:174-175 | `split("://").nth(1)` is absent exactly when there is no "://" |
| BrowserCommands.BeforeFirst | packages/actionbook-rs/src/commands/browser.rs:176 | `split('/').next()` is the longest prefix without '/' |
| BrowserCommands.AfterLast | packages/actionbook-rs/src/commands/browser.rs:177 | `rsplit(':').next()` is the longest suffix without ':' |
| BrowserCommands.WsPort | packages/actionbook-rs/src/commands/browser.rs:173-179 | the WebSocket port always fits in a u16 (it defaults to 9222) |
| BrowserCommands.WsPortOfAuthority | packages/actionbook-rs/src/commands/browser.rs:173-179 | for ws(s)://host:port/path the port is the digits after the last ':' of the host part |
| BrowserCommands.ResolveCdpEndpoint | packages/actionbook-rs/src/commands/browser.rs:171-215 | a ws:// or wss:// endpoint is kept with its port; a u16 number is a debugging port; anything else is an error |
| BrowserCommands.KidsIndex | packages/actionbook-rs/src/commands/browser.rs:2194 | the index of the array-valued "children" field agrees with the JSON lookup |
| BrowserCommands.RenderSnapshotTree | packages/actionbook-rs/src/commands/browser.rs:2161-2230 | the recursive method, with its loop over the children, produces exactly the rendering function |
| BrowserCommands.AppendChildren | packages/actionbook-rs/src/commands/browser.rs:2223-2227 | the children loop appends each child's rendering at depth + 1, in order |
| BrowserCommands.RenderText | packages/actionbook-rs/src/commands/browser.rs:2170-2178 | a text node renders nothing unless its content is a non-empty string; then 2·depth spaces, "- text: ", the content and one final line feed, so the content reads back between the lead and that line feed |
| BrowserCommands.RenderHeader | packages/actionbook-rs/src/commands/browser.rs:2180-2216 | every other node starts with 2·depth spaces, "- " and the role (default "generic"), and with its header line |
| BrowserCommands.ValueShownIffNonEmpty | packages/actionbook-rs/src/commands/browser.rs:2204-2208 | an empty or missing `value` adds nothing to the line; a non-empty one appears quoted |
| BrowserCommands.HeaderColon | packages/actionbook-rs/src/commands/browser.rs:2210-2212 | the header line ends in ':' when the node has non-empty children or a url |
| BrowserCommands.RenderLeaf | packages/actionbook-rs/src/commands/browser.rs:2210-2220 | a node without children and without url renders as its header line without the colon |
| BrowserCommands.RenderEndsWithNewline | packages/actionbook-rs/src/commands/browser.rs:2161-2230 | every rendering is a sequence of whole lines |
| ExtensionBridge.RiskName | packages/actionbook-rs/src/browser/extension_bridge.rs:24-31 | a level is sent as "L" followed by one digit |
| ExtensionBridge.RiskNameInjective | packages/actionbook-rs/src/browser/extension_bridge.rs:24-31 | different levels are sent under different names |
| ExtensionBridge.GetRiskLevel | packages/actionbook-rs/src/browser/extension_bridge.rs:36-68 | L1 exactly for the six read-only methods and every `Extension.*` method, L2 exactly for the seven modifying methods, L3 exactly for the five high-risk methods, nothing for every other method |
| ExtensionBridge.ListedNotExtension | packages/actionbook-rs/src/browser/extension_bridge.rs:45-61 | no L2 or L3 method lies in the `Extension.` namespace, so the namespace rule never lowers a listed level |
| ExtensionBridge.ParseOrigin | packages/actionbook-rs/src/browser/extension_bridge.rs:331-366 | a parsed origin has a non-empty host that follows the scheme and "://" and ends at the end, a ':' or a '/'; a bracketed host keeps its brackets; the port has no trailing '/' |
| ExtensionBridge.ParseAuthority | packages/actionbook-rs/src/browser/extension_bridge.rs:335-365 | the rest after "://" must be non-empty; the host is a prefix of it ending at the end, ':' or '/', keeps its brackets, and an empty host is refused |
| ExtensionBridge.OriginOf | packages/actionbook-rs/src/browser/extension_bridge.rs:332 | when the scheme has no ':', the origin splits at the "://" right after it |
| ExtensionBridge.AuthorityPlain | packages/actionbook-rs/src/browser/extension_bridge.rs:350-364 | a host without brackets, ':' or a final '/', followed by nothing, '/' or a port, is read back whole |
| ExtensionBridge.AuthorityBracket | packages/actionbook-rs/src/browser/extension_bridge.rs:337-349 | a bracketed IPv6 host such as [::1] is read back with its brackets |
| ExtensionBridge.IsOriginAllowed | packages/actionbook-rs/src/browser/extension_bridge.rs:375-377 | a missing Origin (a CLI client) is allowed |
| ExtensionBridge.OriginCaseInsensitive | packages/actionbook-rs/src/browser/extension_bridge.rs:379 | matching ignores ASCII case |
| ExtensionBridge.OriginAllowedShape | packages/actionbook-rs/src/browser/extension_bridge.rs:375-395 | an accepted origin names the allowed extension id or plain http on 127.0.0.1, localhost or [::1], with nothing but a port or '/' after the host |
| ExtensionBridge.LoopbackAccepted | packages/actionbook-rs/src/browser/extension_bridge.rs:388-390 | http on a loopback host, with or without a port or a final '/', is accepted |
| ExtensionBridge.LoopbackPrefixRejected | packages/actionbook-rs/src/browser/extension_bridge.rs:388-390 | a loopback name followed by anything other than a port or a path, as in 127.0.0.1.evil.com, is refused |
| ExtensionBridge.ExtensionAccepted | packages/actionbook-rs/src/browser/extension_bridge.rs:383-386 | the allowed extension's origin, with or without a final '/', is accepted |
| ExtensionBridge.PortFileContent | packages/actionbook-rs/src/browser/extension_bridge.rs:86-93 | the port file holds the port in decimal digits |
| ExtensionBridge.ReadPortFile | packages/actionbook-rs/src/browser/extension_bridge.rs:96-100 | a read port fits in a u16 |
| ExtensionBridge.PortFileRoundTrip | packages/actionbook-rs/src/browser/extension_bridge.rs:86-100 | reading the port file gives back the port that was written |
| ExtensionBridge.PidFileContent | packages/actionbook-rs/src/browser/extension_bridge.rs:130 | the PID file holds the pid, a ':' and the port |
| ExtensionBridge.ReadPidFile | packages/actionbook-rs/src/browser/extension_bridge.rs:155-160 | the trimmed content is split at the first ':' into a 32-bit pid and a 16-bit port; content without a ':' reads as nothing |
| ExtensionBridge.PidFileRoundTrip | packages/actionbook-rs/src/browser/extension_bridge.rs:124-160 | reading the PID file gives back the pid and port that were written |
| ExtensionBridge.ReadPidFileAt | packages/actionbook-rs/src/browser/extension_bridge.rs:158-159 | a content whose first ':' has a number on each side reads as those two numbers |
| ExtensionBridge.LegacyPidFileStale | packages/actionbook-rs/src/browser/extension_bridge.rs:153-159 | a legacy file holding only a pid reads as nothing, so it is treated as stale |
| ExtensionBridge.ErrorReply | packages/actionbook-rs/src/browser/extension_bridge.rs:680-687 | an error reply carries the CLI's own id |
| ExtensionBridge.CommandMessageFields | packages/actionbook-rs/src/browser/extension_bridge.rs:713-719 | the forwarded command carries the bridge id, the CLI's method and params, and the level's name |
| ExtensionBridge.CliRequest | packages/actionbook-rs/src/browser/extension_bridge.rs:637-648 | the method defaults to "", the params to null and the CLI id to 0 |
| ExtensionBridge.ReplaceIdFields | packages/actionbook-rs/src/browser/extension_bridge.rs:752-758 | a reply forwarded to the CLI carries the CLI's id and every other field of the extension's answer unchanged |
| ExtensionBridge.BridgeState.constructor | packages/actionbook-rs/src/browser/extension_bridge.rs:193-200 | a new bridge has no extension, no pending requests and next id 1 |
| ExtensionBridge.BridgeState.ConnectExtension | packages/actionbook-rs/src/browser/extension_bridge.rs:534-537 | a connected extension changes neither the table nor the id counter |
| ExtensionBridge.BridgeState.HandleCliCommand | packages/actionbook-rs/src/browser/extension_bridge.rs:650-750 | Camoufox commands bypass the table; an unlisted method gets -32601 before any id is allocated; without an extension the command is refused; otherwise a fresh id, never pending before, is allocated, the counter rises by one and the command is forwarded, and a failed send removes the entry again and drops the extension |
| ExtensionBridge.BridgeState.RouteResponse | packages/actionbook-rs/src/browser/extension_bridge.rs:564-571 | a response whose id is pending removes exactly that entry and is delivered under the CLI's id; any other message leaves the table unchanged |
| ExtensionBridge.BridgeState.DisconnectExtension | packages/actionbook-rs/src/browser/extension_bridge.rs:595-605 | on disconnect every pending entry is drained and the extension channel cleared |
| ExtensionBridge.BridgeState.TimeOut | packages/actionbook-rs/src/browser/extension_bridge.rs:771-775 | a timed-out request removes only its own entry |
| ExtensionBackend.ExtensionSend | packages/actionbook-rs/src/browser/extension_backend.rs:30-49 | only a "No tab attached" failure of a method outside `Extension.` triggers one attach of the active tab and one retry; a failed attach is the result; the command is sent at most twice (the `extension_send` helper of the browser command follows the same rule) |
| ExtensionBackend.FirstConnected | packages/actionbook-rs/src/browser/extension_backend.rs:76-97 | the first attempt whose answer is not "Extension not connected", if any |
| ExtensionBackend.Send | packages/actionbook-rs/src/browser/extension_backend.rs:57-109 | at most 61 attempts; the result is the first answer that is not "Extension not connected", else the timeout error after the last attempt; the waiting notice appears at most once, exactly when the 13th retry still finds no extension |
| ExtensionBackend.JsonEscapeChar | packages/actionbook-rs/src/browser/extension_backend.rs:201 | every character has a non-empty JSON string escape (section 7 of RFC 8259) |
| ExtensionBackend.JsonEscapeCharQuotes | packages/actionbook-rs/src/browser/extension_backend.rs:201-203 | no escape starts with '"', and only '"' and '\'' themselves produce those characters |
| ExtensionBackend.UnquoteJson | packages/actionbook-rs/src/browser/extension_backend.rs:203 | undoing the `\"` escapes leaves the JSON escapes of every other character |
| ExtensionBackend.EscapeApostrophes | packages/actionbook-rs/src/browser/extension_backend.rs:203 | escaping single quotes afterwards gives each character's JavaScript escape |
| ExtensionBackend.EscapeJsPerChar | packages/actionbook-rs/src/browser/extension_backend.rs:199-204 | `escape_js_string` escapes each character on its own: '"' stays, '\'' becomes `\'`, newline `\n`, backslash `\\` |
| ExtensionBackend.EscapePlain | packages/actionbook-rs/src/browser/extension_backend.rs:199-204 | plain text, double quotes included, comes out unchanged |
| ExtensionBackend.EscapeLeadingQuote | packages/actionbook-rs/src/browser/extension_backend.rs:199-204 | a leading single quote comes out escaped |
| ExtensionBackend.UnescapeChar | packages/actionbook-rs/src/browser/extension_backend.rs:199-204 | reading one escaped character as JavaScript gives the character back |
| ExtensionBackend.EscapeJsRoundTrip | packages/actionbook-rs/src/browser/extension_backend.rs:199-204 | reading the escaped text as the body of a single-quoted JavaScript literal gives back the input, so no input can close the literal early |
| ExtensionBackend.PageOf | packages/actionbook-rs/src/browser/extension_backend.rs:326-341 | a tab's id is "tab:<n>" for a numeric id and "" otherwise |
| ExtensionBackend.Pages | packages/actionbook-rs/src/browser/extension_backend.rs:314-345 | one entry per listed tab, in order; no tab list gives no pages |
| ExtensionBackend.SwitchTabId | packages/actionbook-rs/src/browser/extension_backend.rs:347-357 | the id without an optional "tab:" prefix parses as a u64, else the invalid-tab-id error |
| ExtensionBackend.TabIdRoundTrip | packages/actionbook-rs/src/browser/extension_backend.rs:328-357 | "tab:<n>" and the bare "<n>" both switch to tab n |
| ExtensionBackend.SwitchBare | packages/actionbook-rs/src/browser/extension_backend.rs:348-351 | a bare digit string switches to its value |
| ExtensionBackend.SwitchPrefixed | packages/actionbook-rs/src/browser/extension_backend.rs:348-351 | "tab:" followed by digits switches to the digits' value |
| ExtensionBackend.PagesSwitchRoundTrip | packages/actionbook-rs/src/browser/extension_backend.rs:314-357 | every page listed with a numeric id can be switched to by the id `pages` printed |
| ExtensionBackend.NonNumericTabIdRejected | packages/actionbook-rs/src/browser/extension_backend.rs:348-357 | an id without digits is refused |
| ExtensionBackend.Selected | packages/actionbook-rs/src/browser/extension_backend.rs:781-789 | the cookies the domain filter selects, in order |
| ExtensionBackend.SelectedMembers | packages/actionbook-rs/src/browser/extension_backend.rs:781-789 | a cookie is selected iff its domain ends with the filter, and the selection keeps list order |
| ExtensionBackend.SelectedAll | packages/actionbook-rs/src/browser/extension_backend.rs:785-789 | without a domain every cookie is selected |
| ExtensionBackend.ClearCookies | packages/actionbook-rs/src/browser/extension_backend.rs:774-798 | one removal per selected cookie, in order; the first failing removal stops the loop and is the last one requested |
| ExtensionBackend.EvalValue | packages/actionbook-rs/src/browser/extension_backend.rs:113-147 | an exception report is an error; otherwise `result.value`, else `result`, else null |
| ExtensionBackend.EvalAction | packages/actionbook-rs/src/browser/extension_backend.rs:154-167 | an action succeeds iff the script reported `success: true`; otherwise the error names the action and the script's error or "Unknown error" |
| ExtensionBackend.ReadResult | packages/actionbook-rs/src/browser/extension_backend.rs:634-640 | a string is the answer; null is ElementNotFound naming the selector, or "document" for html and "body" for text; any other value is its JSON text |
| ExtensionCommands.MatchedPid | packages/actionbook-rs/src/commands/extension.rs:155-156 | an entry counts only when its recorded port is the requested one, and then gives its pid |
| ExtensionCommands.ResolvePidForPort | packages/actionbook-rs/src/commands/extension.rs:146-169 | NoMatch exactly when neither entry matches; a selected pid is one of the matching pids; Ambiguous and BothMatchedButDead only for two matches with different pids |
| ExtensionCommands.ProbesOnlyWhenPidsDiffer | packages/actionbook-rs/src/commands/extension.rs:158-168 | liveness is asked about only when both entries match with different pids |
| ExtensionCommands.ResolveUsesOnlyProbes | packages/actionbook-rs/src/commands/extension.rs:158-168 | the result depends on liveness only through the probed pids |
| ExtensionCommands.SingleMatchSelected | packages/actionbook-rs/src/commands/extension.rs:159 | a single match, or two matches with the same pid, is selected whatever the liveness |
| ExtensionCommands.TwoMatchesByLiveness | packages/actionbook-rs/src/commands/extension.rs:160-165 | for two different matching pids: the live one when exactly one is alive, Ambiguous when both are, BothMatchedButDead when neither is |
| ExtensionCommands.OtherPortsIgnored | packages/actionbook-rs/src/commands/extension.rs:155-156 | entries recorded for another port are as good as absent |
| NativeMessaging.LeBytes | packages/actionbook-rs/src/browser/native_messaging.rs:55 | `to_le_bytes` writes four bytes |
| NativeMessaging.LeRoundTrip | packages/actionbook-rs/src/browser/native_messaging.rs:31 | `from_le_bytes` of `to_le_bytes` is the length |
| NativeMessaging.ReadFrame | packages/actionbook-rs/src/browser/native_messaging.rs:24-46 | reading consumes no more than the input holds |
| NativeMessaging.FrameRoundTrip | packages/actionbook-rs/src/browser/native_messaging.rs:24-57 | for a payload of at most 1,048,576 bytes, reading what was written gives the payload and stops right after it |
| NativeMessaging.OversizedRejected | packages/actionbook-rs/src/browser/native_messaging.rs:34-39 | a length above 1,048,576 is refused after the four prefix bytes, before any payload byte is read |
| NativeMessaging.InputStream.ReadExact | packages/actionbook-rs/src/browser/native_messaging.rs:30 | `read_exact` fills the buffer with the next bytes when enough remain, else fails having consumed the rest |
| NativeMessaging.ReadMessage | packages/actionbook-rs/src/browser/native_messaging.rs:24-46 | the byte-level reader does exactly what ReadFrame describes, on the bytes still unread |
| NativeMessaging.OutputStream.WriteAll | packages/actionbook-rs/src/browser/native_messaging.rs:55-56 | `write_all` appends the bytes |
| NativeMessaging.WriteMessage | packages/actionbook-rs/src/browser/native_messaging.rs:49-58 | the output grows by the 32-bit little-endian length, cut by `as u32`, followed by the payload |
| NativeMessaging.RequestType | packages/actionbook-rs/src/browser/native_messaging.rs:71-74 | the request type is "" when missing or not a string |
| NativeMessaging.BridgeInfoFields | packages/actionbook-rs/src/browser/native_messaging.rs:83-87 | a running bridge is reported as `bridge_info` with its port and `bridge_running: true` |
| NativeMessaging.BridgeNotRunningFields | packages/actionbook-rs/src/browser/native_messaging.rs:89-94 | a stopped bridge is reported as the `bridge_not_running` error with the port |
| NativeMessaging.UnknownTypeFields | packages/actionbook-rs/src/browser/native_messaging.rs:97-101 | any other type is the `unknown_type` error naming the type |
| NativeMessaging.RespondCases | packages/actionbook-rs/src/browser/native_messaging.rs:76-102 | `get_bridge_info` and `get_token` are answered with the port file's port (19222 without one), as `bridge_info` iff the bridge runs; every other type is `unknown_type` |
| NativeMessaging.ManifestFields | packages/actionbook-rs/src/browser/native_messaging.rs:148-158 | the manifest names the host, the given binary and the stdio transport, and allows exactly one origin, `chrome-extension://<id>/`, which the bridge's Origin check accepts |
| ConfigCommands.ParseBool | packages/actionbook-rs/src/commands/config.rs:43 | `value.parse()` into a bool succeeds exactly on "true" and "false" |
| ConfigCommands.BoolTextRoundTrip | packages/actionbook-rs/src/commands/config.rs:42-69 | what `set` parses, `get` prints back unchanged, and a printed bool parses back |
| ConfigCommands.Get | packages/actionbook-rs/src/commands/config.rs:61-80 | an error, naming the key, exactly for a key outside the five known ones |
| ConfigCommands.Set | packages/actionbook-rs/src/commands/config.rs:33-58 | an unknown key and a headless value other than true/false are errors that change nothing; otherwise exactly the named field changes, `get` of that key reads the value back, and every other key reads as before |
| ConfigCommands.Reset | packages/actionbook-rs/src/commands/config.rs:118-162 | `no_config` when there is no file; the file is removed exactly when it exists and JSON mode is on or the prompt is confirmed |
| ProfileConfig.DefaultProfile | packages/actionbook-rs/src/config/profile.rs:28-44 | port 9222, not headless, no data directory, browser path, CDP url or extra arguments |
| ProfileConfig.WithCdpPort | packages/actionbook-rs/src/config/profile.rs:47-52 | the default profile with only the port changed |
| ProfileConfig.Remote | packages/actionbook-rs/src/config/profile.rs:56-61 | the default profile with only the CDP url set |
| ProfileConfig.RemoteProfiles | packages/actionbook-rs/src/config/profile.rs:56-66 | `is_remote` holds for a profile built from a url and for no profile built from a port |
| ProfileCommands.Ports | packages/actionbook-rs/src/commands/profile.rs:82-86 | the set of stored profiles' ports, no more and no fewer |
| ProfileCommands.Max | packages/actionbook-rs/src/commands/profile.rs:86 | `max` is an element at least as large as every other |
| ProfileCommands.AutoPort | packages/actionbook-rs/src/commands/profile.rs:82-89 | the automatic port fits in a `u16` |
| ProfileCommands.AutoPortAboveAll | packages/actionbook-rs/src/commands/profile.rs:82-89 | 9222 for an empty profile table; otherwise, with no port at 65535, a port above every stored one |
| ProfileCommands.AutoPortWrapsAtTop | packages/actionbook-rs/src/commands/profile.rs:82-89 | a stored port of 65535 makes the `u16` sum wrap to 0 |
| ProfileCommands.Create | packages/actionbook-rs/src/commands/profile.rs:76-95 | the given or the automatic port in a fresh profile stored under the name, replacing an earlier one; the api and browser sections are unchanged |
| ProfileCommands.Delete | packages/actionbook-rs/src/commands/profile.rs:116-119 | `remove_profile`: the trimmed default name is refused, an unknown name is an error, and otherwise exactly that profile is removed |
| ProfileCommands.ImplicitListEntry | packages/actionbook-rs/src/commands/profile.rs:60-70 | the extra `(implicit)` entry is shown exactly when no profile is stored under the configured default name itself |
| ProfileCommands.ImplicitListPort | packages/actionbook-rs/src/commands/profile.rs:62-66 | its port is that of the profile the trimmed name resolves to, or 9222 |
| Config.DefaultBrowser | packages/actionbook-rs/src/config/mod.rs:85-97 | isolated mode, the "actionbook" default profile, not headless, the extension on port 19222 with auto-install |
| Config.NormalizeDefaultProfileName | packages/actionbook-rs/src/config/mod.rs:172-179 | a non-empty trimmed name: the trimmed input, or "actionbook" when that is blank |
| Config.NormalizeIdempotent | packages/actionbook-rs/src/config/mod.rs:172-179 | normalizing twice is normalizing once |
| Config.ConfigPathUnderHome | packages/actionbook-rs/src/config/mod.rs:227-232 | with a home directory the file is `<home>/.actionbook/config.toml` |
| Config.ConfigPathWithoutHome | packages/actionbook-rs/src/config/mod.rs:227-232 | without one it is `./.actionbook/config.toml` |
| Config.Config.Default | packages/actionbook-rs/src/config/mod.rs:181-192 | the default API and browser sections and exactly one profile, the default one under "actionbook" |
| Config.Config.EffectiveDefaultProfileName | packages/actionbook-rs/src/config/mod.rs:195-197 | the effective default name is never empty |
| Config.Config.ImplicitDefaultProfile | packages/actionbook-rs/src/config/mod.rs:268-276 | the default profile with the browser section's executable and headless flag carried over |
| Config.Config.GetProfile | packages/actionbook-rs/src/config/mod.rs:258-282 | on the trimmed name: the stored profile first, then the implicit default for the effective default name, and ProfileNotFound with the trimmed name exactly when it is neither |
| Config.Config.SetProfile | packages/actionbook-rs/src/config/mod.rs:285-287 | stores under the exact, untrimmed name, replacing any earlier entry, and changes nothing else |
| Config.Config.RemoveProfile | packages/actionbook-rs/src/config/mod.rs:290-306 | the effective default is refused and kept; a stored trimmed name is removed and nothing else; otherwise ProfileNotFound and nothing changes |
| Config.GetProfileTrims | packages/actionbook-rs/src/config/mod.rs:259 | surrounding whitespace in the requested name does not matter |
| Config.DefaultProfileResolves | packages/actionbook-rs/src/config/mod.rs:267-277 | the effective default profile always resolves, stored or not |
| Config.StoredWinsOverImplicit | packages/actionbook-rs/src/config/mod.rs:262-264 | a stored profile is returned even under the default name |
| Config.DefaultConfigProfile | packages/actionbook-rs/src/config/mod.rs:181-192 | the default configuration's default name is "actionbook" and resolves to the default profile |
| SetupMode.TargetNameInjective | packages/actionbook-rs/src/commands/setup/mode.rs:414-422 | `target_name` gives different names to different targets |
| SetupMode.Unfold | packages/actionbook-rs/src/commands/setup/mode.rs:393-398 | the targets with `All` replaced by Claude, Cursor and Codex |
| SetupMode.Dedup | packages/actionbook-rs/src/commands/setup/mode.rs:391-392 | dropping repeats keeps exactly the same set of targets |
| SetupMode.DedupDistinct | packages/actionbook-rs/src/commands/setup/mode.rs:391-392 | no target is kept twice |
| SetupMode.FirstIndex | packages/actionbook-rs/src/commands/setup/mode.rs:391-392 | the position of a target's first occurrence |
| SetupMode.DedupOrder | packages/actionbook-rs/src/commands/setup/mode.rs:391-392 | targets are kept in the order of their first occurrence |
| SetupMode.PushAllTargets | packages/actionbook-rs/src/commands/setup/mode.rs:397-403 | the inner loop for `All` pushes exactly the concrete targets not yet present |
| SetupMode.PushNew | packages/actionbook-rs/src/commands/setup/mode.rs:399-401 | `if !result.contains(..) { result.push(..) }` |
| SetupMode.ExpandTargets | packages/actionbook-rs/src/commands/setup/mode.rs:393-411 | the loop's result is the order-preserving deduplication of the unfolded targets |
| SetupMode.ExpandedShape | packages/actionbook-rs/src/commands/setup/mode.rs:391-411 | the expansion never holds `All` or a repeat, keeps first-occurrence order, and holds exactly the named targets plus, with `All`, Claude, Cursor and Codex |
| SetupMode.ExpandAll | packages/actionbook-rs/src/commands/setup/mode.rs:435-450 | `[All]` and `[All, Codex]` both expand to Claude, Cursor, Codex in that order |
| SetupMode.SelectModes | packages/actionbook-rs/src/commands/setup/mode.rs:42-100 | a flag's targets are expanded; in non-interactive mode the detected tools are used; otherwise the prompt decides |
| SetupMode.DetectedTargets | packages/actionbook-rs/src/commands/setup/mode.rs:69-83 | never empty and never `All`; Claude, Cursor and Codex each present iff detected; Standalone iff none is |
| SetupMode.TargetFileInfo | packages/actionbook-rs/src/commands/setup/mode.rs:205-222 | there is a file for every target except Standalone and All |
| SetupMode.FileSystem.BackupFile | packages/actionbook-rs/src/commands/setup/mode.rs:378-389 | a missing file is left alone; an existing one is copied to `<path>.bak.<timestamp>` and nothing else changes |
| SetupMode.FileSystem.Write | packages/actionbook-rs/src/commands/setup/mode.rs:369-375 | the file holds the content afterwards |
| SetupMode.FileSystem.WriteFileIdempotent | packages/actionbook-rs/src/commands/setup/mode.rs:225-366 | a missing file is created; identical content is left alone as up to date; differing content is backed up and overwritten with force or an overwrite answer, and otherwise skipped untouched |
| SetupMode.FileTargets | packages/actionbook-rs/src/commands/setup/mode.rs:192-198 | exactly the targets that have a file, in order |
| SetupMode.GenerateIntegrationFiles | packages/actionbook-rs/src/commands/setup/mode.rs:185-202 | one result per target that has a file, in input order, each for that target's path |
| ApiKeySetup.MaskKey | packages/actionbook-rs/src/commands/setup/api_key.rs:270-279 | a key of at most 8 characters is as many stars; a longer one shows its first four and last four characters around "..." |
| ApiKeySetup.MaskShowsOnlyEnds | packages/actionbook-rs/src/commands/setup/api_key.rs:270-279 | keys of one short length, or long keys with the same ends, mask alike |
| ApiKeySetup.ResolveExistingKey | packages/actionbook-rs/src/commands/setup/api_key.rs:252-267 | the flag, then the environment, then the config, with the source's name; "none" exactly when there is no key |
| ApiKeySetup.ConfigureApiKey | packages/actionbook-rs/src/commands/setup/api_key.rs:16-72 | a found key is stored when it came from the flag, in non-interactive mode or when kept; a rejected key is cleared before the prompt; without a key non-interactive mode skips; only the API key changes |
| BrowserSetup.ModeApplied | packages/actionbook-rs/src/commands/setup/browser_cfg.rs:325-353 | the mode is set; isolated mode takes the first detected browser (or none) and turns headless on; extension mode changes nothing else |
| BrowserSetup.ModeAppliedIdempotent | packages/actionbook-rs/src/commands/setup/browser_cfg.rs:325-353 | applying a mode twice is applying it once |
| BrowserSetup.ApplyBrowserMode | packages/actionbook-rs/src/commands/setup/browser_cfg.rs:325-353 | only the browser section changes, as ModeApplied says |
| BrowserSetup.ConfigureBrowser | packages/actionbook-rs/src/commands/setup/browser_cfg.rs:18-73 | a flag applies its mode; non-interactive mode re-applies the configured mode; otherwise nothing changes before the prompts |
| Stealth.DefaultStealthProfile | packages/actionbook-rs/src/browser/stealth.rs:34-46 | macOS on Apple silicon with an M4 Max, Chrome 130, 16 GB, 8 cores, en-US, America/Los_Angeles |
| Stealth.OsFromAliasTable | packages/actionbook-rs/src/browser/stealth.rs:233-238 | a lower-case text names an OS exactly when it is one of that OS's aliases |
| Stealth.ParseOsIgnoresCase | packages/actionbook-rs/src/browser/stealth.rs:233 | `parse_stealth_os` depends only on the lower-cased text |
| Stealth.ParseOsExact | packages/actionbook-rs/src/browser/stealth.rs:232-240 | a text parses to an OS exactly when its lower-case form is one of that OS's aliases |
| Stealth.ParseOsUnknown | packages/actionbook-rs/src/browser/stealth.rs:238 | a text that is no alias in any case gives None |
| Stealth.StripSeparators | packages/actionbook-rs/src/browser/stealth.rs:244 | `replace(['-', '_', ' '], "")` leaves no separator and never lengthens the text |
| Stealth.StripAppend | packages/actionbook-rs/src/browser/stealth.rs:244 | dropping separators works piece by piece |
| Stealth.GpuAliasParses | packages/actionbook-rs/src/browser/stealth.rs:245-253 | every alias in the table reaches its GPU |
| Stealth.GpuParsedIsAlias | packages/actionbook-rs/src/browser/stealth.rs:245-254 | only the table's aliases reach a GPU |
| Stealth.GpuFromAliasTable | packages/actionbook-rs/src/browser/stealth.rs:245-254 | both directions together |
| Stealth.ParseGpuExact | packages/actionbook-rs/src/browser/stealth.rs:243-256 | a text parses to a GPU exactly when its lower-cased, separator-free form is one of that GPU's aliases |
| Stealth.ParseGpuIgnoresCase | packages/actionbook-rs/src/browser/stealth.rs:244 | `parse_stealth_gpu` ignores case |
| Stealth.ParseGpuIgnoresSeparator | packages/actionbook-rs/src/browser/stealth.rs:244 | removing a dash, underscore or space anywhere changes nothing |
| Stealth.ParseGpuIgnoresSeparators | packages/actionbook-rs/src/browser/stealth.rs:244 | so all separators may be dropped beforehand |
| Stealth.BuildStealthProfile | packages/actionbook-rs/src/browser/stealth.rs:259-275 | the default profile with the OS and the GPU replaced when, and only when, they are given and parse |
| Fingerprint.Platform | packages/actionbook-rs/src/browser/fingerprint_generator.rs:28-34 | Win32 for Windows, MacIntel for both Macs, "Linux x86_64" for Linux |
| Fingerprint.UserAgentMentions | packages/actionbook-rs/src/browser/fingerprint_generator.rs:37-68 | the user agent names the OS family and carries `Chrome/<version>.0.0.0` |
| Fingerprint.UserAgentInjective | packages/actionbook-rs/src/browser/fingerprint_generator.rs:37-68 | different Chrome versions give different user agents |
| Fingerprint.TypicalLanguages | packages/actionbook-rs/src/browser/fingerprint_generator.rs:71-78 | en-US then en, on every OS |
| Fingerprint.TypicalTimezone | packages/actionbook-rs/src/browser/fingerprint_generator.rs:81-87 | America/Los_Angeles on a Mac, America/New_York elsewhere |
| Fingerprint.NewScreen | packages/actionbook-rs/src/browser/fingerprint_generator.rs:102-110 | the available height is the height less 40 on screens taller than 1000 pixels and less 30 otherwise, saturating at 0; the width is all available |
| Fingerprint.TablesValid | packages/actionbook-rs/src/browser/fingerprint_generator.rs:510-512 | every weight table the generator uses is non-empty with positive weights, so `WeightedIndex::new` cannot panic |
| Fingerprint.GpuVendors | packages/actionbook-rs/src/browser/fingerprint_generator.rs:172-338 | every GPU offered on a Mac is Apple's and none offered elsewhere is |
| Fingerprint.VersionsRange | packages/actionbook-rs/src/browser/fingerprint_generator.rs:496-507 | the Chrome versions offered lie in 127 to 131 |
| Fingerprint.HardwarePositive | packages/actionbook-rs/src/browser/fingerprint_generator.rs:340-400 | every hardware configuration has cores and memory |
| Fingerprint.ScreensPositive | packages/actionbook-rs/src/browser/fingerprint_generator.rs:113-168 | every screen offered has a width and a height |
| Fingerprint.Pick | packages/actionbook-rs/src/browser/fingerprint_generator.rs:510-520 | a sampled index lies inside the table |
| Fingerprint.GenerateForConsistent | packages/actionbook-rs/src/browser/fingerprint_generator.rs:422-457 | whatever the draws, the platform, user agent, timezone, screen, GPU and hardware come from the tables for its OS, the Chrome version lies in 127 to 131, and the language is en-US with languages en-US and en, colour depth 24 and no coordinates |
| Fingerprint.VendorMatchesOs | packages/actionbook-rs/src/browser/fingerprint_generator.rs:570-584 | a Mac profile has Apple's WebGL vendor and a Windows or Linux one never does |
| Fingerprint.ConsistentFieldsSet | packages/actionbook-rs/src/browser/fingerprint_generator.rs:556-569 | every field the source's own checks look at is set and positive |
| Fingerprint.FingerprintGenerator.constructor | packages/actionbook-rs/src/browser/fingerprint_generator.rs:412-419 | `new` and `with_seed` start at the head of their random stream |
| Fingerprint.FingerprintGenerator.WeightedChoice | packages/actionbook-rs/src/browser/fingerprint_generator.rs:510-521 | one draw picks one table entry |
| Fingerprint.FingerprintGenerator.Generate | packages/actionbook-rs/src/browser/fingerprint_generator.rs:422-457 | the OS, then the screen, GPU, hardware and Chrome version for it, from five consecutive draws |
| Fingerprint.GenerateWithOs | packages/actionbook-rs/src/browser/fingerprint_generator.rs:524-548 | the same profile for a fixed OS from a fresh stream's first four draws |
| Fingerprint.SameDrawsSameProfile | packages/actionbook-rs/src/browser/fingerprint_generator.rs:587-598 | equal streams give equal profiles, the reproducibility a seed promises |
| Launcher.Initial | packages/actionbook-rs/src/browser/launcher.rs:22-38 | the discovered browser, port 9222, neither headless nor stealthy, `<data dir>/actionbook/profiles/default`, no extra arguments |
| Launcher.New | packages/actionbook-rs/src/browser/launcher.rs:22-38 | the first discovered browser, or BrowserNotFound exactly when discovery finds none |
| Launcher.WithBrowserPath | packages/actionbook-rs/src/browser/launcher.rs:42-68 | an error naming the path exactly when it does not exist; otherwise a Chrome-compatible browser at that path with the initial settings |
| Launcher.FromProfile | packages/actionbook-rs/src/browser/launcher.rs:72-87 | with a browser path: "Browser not found at: <path>" exactly when it is missing, else that Chrome path; without one: `BrowserNotFound` exactly when discovery finds nothing, else the first discovered browser; then the profile's port and headless flag, and its tilde-expanded data directory when it has one |
| Launcher.WithStealth | packages/actionbook-rs/src/browser/launcher.rs:90-93 | changes only the stealth flag |
| Launcher.WithCdpPort | packages/actionbook-rs/src/browser/launcher.rs:96-99 | changes only the port |
| Launcher.WithHeadless | packages/actionbook-rs/src/browser/launcher.rs:102-105 | changes only the headless flag |
| Launcher.WithUserDataDir | packages/actionbook-rs/src/browser/launcher.rs:108-111 | changes only the data directory |
| Launcher.WithExtraArgs | packages/actionbook-rs/src/browser/launcher.rs:114-117 | replaces the extra arguments and nothing else |
| Launcher.BuildArgs | packages/actionbook-rs/src/browser/launcher.rs:120-142 | the vector built push by push is the command line Args describes |
| Launcher.ArgsShape | packages/actionbook-rs/src/browser/launcher.rs:120-142 | the port flag first, the data directory second, the five anti-detection flags always, `--headless=new` only when headless, the extra arguments last and in order |
| Launcher.HeadlessFlagIff | packages/actionbook-rs/src/browser/launcher.rs:135-137 | outside the extra arguments, `--headless=new` appears exactly when the launcher is headless |
| Launcher.PortFlagRoundTrip | packages/actionbook-rs/src/browser/launcher.rs:122 | the port flag parses back to the port for every `u16` |
| Launcher.StealthNotInArgs | packages/actionbook-rs/src/browser/launcher.rs:90-142 | the stealth switch does not reach the command line |
| Launcher.FromProfileArgs | packages/actionbook-rs/src/browser/launcher.rs:79-136 | a launcher carrying a profile's settings starts with its port and is headless when it is |
| Session.EditingAliasesMatch | packages/actionbook-rs/src/browser/session.rs:756-760 | the names of Enter, Tab, Escape, Backspace and Delete are exactly the table's |
| Session.ArrowAliasesMatch | packages/actionbook-rs/src/browser/session.rs:761-764 | likewise for the four arrow keys |
| Session.PagingAliasesMatch | packages/actionbook-rs/src/browser/session.rs:765-769 | likewise for Home, End, PageUp, PageDown and Space |
| Session.KeyFromAliasTable | packages/actionbook-rs/src/browser/session.rs:755-770 | a lower-case name selects a key exactly when it is one of the table's names for it |
| Session.KeyEventNamed | packages/actionbook-rs/src/browser/session.rs:755-769 | a key named in any case by one of its aliases is sent as that key's code and text |
| Session.KeyEventUnknown | packages/actionbook-rs/src/browser/session.rs:770 | any other key is passed through unchanged as both code and text |
| Session.KeyEventCase | packages/actionbook-rs/src/browser/session.rs:755-770 | the case of a named key does not matter; an unnamed key keeps its case |
| Session.KeyDownParams | packages/actionbook-rs/src/browser/session.rs:776-780 | the key-down event carries its type, the key code and the text |
| Session.KeyUpParams | packages/actionbook-rs/src/browser/session.rs:787-790 | the key-up event carries its type and the key code, and no text |
| Session.PressKeyCommands | packages/actionbook-rs/src/browser/session.rs:753-795 | two `Input.dispatchKeyEvent` commands: key down with the text, then key up with the same code |
| Session.ToUsize | packages/actionbook-rs/src/browser/session.rs:558 | `as usize` keeps a non-negative `i64` and wraps a negative one to the top of the range |
| Session.CurrentIndex | packages/actionbook-rs/src/browser/session.rs:554 | `currentIndex` as an `i64`, 0 when missing or not one |
| Session.BackTarget | packages/actionbook-rs/src/browser/session.rs:549-572 | `go_back` navigates only when the index is positive, and then to the entry before it |
| Session.ForwardSlot | packages/actionbook-rs/src/browser/session.rs:582 | `current_index + 1` is the next slot below `i64::MAX` |
| Session.NavigateToEntry | packages/actionbook-rs/src/browser/session.rs:559-566 | `Page.navigateToHistoryEntry` with the entry's id |
| Session.HistoryFields | packages/actionbook-rs/src/browser/session.rs:554-557 | a history's index and entries read back |
| Session.EntryIdOf | packages/actionbook-rs/src/browser/session.rs:559 | an entry's id reads back |
| Session.NavigationTargets | packages/actionbook-rs/src/browser/session.rs:549-595 | on a history whose entries carry ids, back goes to the entry before the current one exactly when there is one, and forward to the entry after it exactly when there is one |
| Session.BackThenForward | packages/actionbook-rs/src/browser/session.rs:549-595 | going back from entry c and then forward from c - 1 returns to entry c |
| Session.MissingIndex | packages/actionbook-rs/src/browser/session.rs:554-582 | without a usable index `go_back` stays put and `go_forward` goes to entry 1 |
| Session.PagesOnly | packages/actionbook-rs/src/browser/session.rs:198-201 | `filter(page_type == "page")`: exactly the listing's pages |
| Session.PagesOnlyAppend | packages/actionbook-rs/src/browser/session.rs:198-201 | filtering a concatenation filters each part in order |
| Session.PagesOnlyIdempotent | packages/actionbook-rs/src/browser/session.rs:198-201 | filtering twice is filtering once |
| Session.PagesOnlyHead | packages/actionbook-rs/src/browser/session.rs:198-201 | the filtered listing starts with the listing's first page |
| Session.GetPages | packages/actionbook-rs/src/browser/session.rs:177-202 | BrowserNotRunning without saved state, the request and decoding failures with their messages, otherwise the listing's pages |
| Session.ActivePageInfo | packages/actionbook-rs/src/browser/session.rs:205-208 | the first page, BrowserNotRunning when there is none, or the listing's error |
| Session.ActivePageIsFirstPage | packages/actionbook-rs/src/browser/session.rs:177-208 | the active page is the listing's first entry of type "page", and there is none exactly when no entry is one |
| Session.EvaluateRequest | packages/actionbook-rs/src/browser/session.rs:226-233 | request 1, `Runtime.evaluate` |
| Session.ReplyValue | packages/actionbook-rs/src/browser/session.rs:245-256 | `result.result.value`, else `result.result`, else the error as a JavaScriptError, else null |
| Session.FrameOutcome | packages/actionbook-rs/src/browser/session.rs:241-261 | other frames are skipped, a socket error or an unparsable text ends the call, and a text decides exactly when its id is 1 |
| Session.ReadReplyFirstDecisive | packages/actionbook-rs/src/browser/session.rs:241-264 | reading stops at the first frame that decides |
| Session.ReadReplyNoneDecisive | packages/actionbook-rs/src/browser/session.rs:264 | a stream with no deciding frame ends in "No response received" |
| Session.ReadReplySkips | packages/actionbook-rs/src/browser/session.rs:241-262 | frames that decide nothing do not change the outcome |
| Session.EvalOnPage | packages/actionbook-rs/src/browser/session.rs:211-265 | the active page's error, "No WebSocket URL", the connection and the send failures each with its error, then the outcome of the frames |
| Session.ProfileName | packages/actionbook-rs/src/browser/session.rs:1044 | the named profile, or "default" |
| Session.GetStatus | packages/actionbook-rs/src/browser/session.rs:1043-1064 | Running when saved state's port answers, Stale when it does not, NotRunning without state, always for the named or default profile |
| Session.StatusDefaultProfile | packages/actionbook-rs/src/browser/session.rs:1044 | naming no profile is naming "default" |
| Discovery.NameInjective | packages/actionbook-rs/src/browser/discovery.rs:16-24 | different browser types have different display names |
| Discovery.LastWord | packages/actionbook-rs/src/browser/discovery.rs:190-193 | the text after the last space, or all of it when there is none |
| Discovery.DetectVersion | packages/actionbook-rs/src/browser/discovery.rs:183-198 | a version exactly for a successful run, and then the last word of its trimmed output |
| Discovery.BrowserCandidates | packages/actionbook-rs/src/browser/discovery.rs:80-180 | each platform's browser types, in priority order, with their paths |
| Discovery.CandidateTypesDistinct | packages/actionbook-rs/src/browser/discovery.rs:80-180 | no platform lists a browser type twice |
| Discovery.ExpandPaths | packages/actionbook-rs/src/browser/discovery.rs:87-118 | each candidate path with a leading `~` read as the home directory |
| Discovery.ExpandCandidates | packages/actionbook-rs/src/browser/discovery.rs:87-118 | the same for every candidate's paths |
| Discovery.FirstExisting | packages/actionbook-rs/src/browser/discovery.rs:67-72 | the first path that exists, none exactly when no path does |
| Discovery.FirstExistingAt | packages/actionbook-rs/src/browser/discovery.rs:67-72 | it is the path at the first position that exists |
| Discovery.DiscoverAll | packages/actionbook-rs/src/browser/discovery.rs:62-77 | at most one browser per candidate |
| Discovery.FoundIndices | packages/actionbook-rs/src/browser/discovery.rs:65-74 | the positions of the candidates found |
| Discovery.FoundIndicesShape | packages/actionbook-rs/src/browser/discovery.rs:65-74 | those positions increase and are exactly the candidates with an existing path |
| Discovery.DiscoverAllIndexed | packages/actionbook-rs/src/browser/discovery.rs:62-77 | each browser found is its candidate's first existing path, with the detected version, in candidate order |
| Discovery.DiscoverAllDistinct | packages/actionbook-rs/src/browser/discovery.rs:62-77 | no browser type is reported twice |
| Discovery.DiscoverAllEmpty | packages/actionbook-rs/src/browser/discovery.rs:62-77 | nothing is found exactly when no candidate path exists |
| Discovery.PushFirstExisting | packages/actionbook-rs/src/browser/discovery.rs:66-73 | the inner loop pushes the first existing path of a candidate and stops |
| Discovery.DiscoverAllBrowsers | packages/actionbook-rs/src/browser/discovery.rs:62-77 | the loop's result is DiscoverAll over the candidates with `~` expanded |
| Discovery.DiscoverBrowser | packages/actionbook-rs/src/browser/discovery.rs:50-59 | the first browser found, or BrowserNotFound exactly when none is |
| Discovery.MacChromeCandidate | packages/actionbook-rs/src/browser/discovery.rs:84-90 | on macOS, Chrome comes first, at `/Applications/...` and then `~/Applications/...` |
| Discovery.HomeApplicationsMissed | packages/actionbook-rs/src/browser/discovery.rs:88 | taken literally, `~/Applications/...` misses a Chrome installed only under the home directory, which expanding `~` finds |
| ApiTypes.DefaultSearchType | packages/actionbook-rs/src/api/types.rs:7-14 | the derived default is hybrid |
| ApiTypes.ParseSearchType | packages/actionbook-rs/src/commands/search.rs:20-25 | any name other than "vector" and "fulltext" is hybrid |
| ApiTypes.SearchTypeRoundTrip | packages/actionbook-rs/src/api/types.rs:16-24 | parsing a displayed name gives back the search type, and no two types display alike |
| ApiTypes.UnknownSearchType | packages/actionbook-rs/src/commands/search.rs:24 | corollary over the display names: a string that is the name of no search type parses to the derived default |
| ApiTypes.DecodeOptString | packages/actionbook-rs/src/api/types.rs:72-77 | an `Option<String>` field is None when absent or null, Some for a string, and fails for anything else |
| ApiTypes.Strings | packages/actionbook-rs/src/api/types.rs:76 | an array decodes exactly when every item is a string, keeping them in order |
| ApiTypes.DecodeInfo | packages/actionbook-rs/src/api/types.rs:70-78 | only an object, or an array of exactly six values in field order, decodes to an ElementInfo |
| ApiTypes.OptStringRoundTrip | packages/actionbook-rs/src/api/types.rs:72-77 | an optional string decodes from what it serializes to |
| ApiTypes.OptStringsRoundTrip | packages/actionbook-rs/src/api/types.rs:76 | so does an optional list of strings |
| ApiTypes.EncodedLeadingFields | packages/actionbook-rs/src/api/types.rs:70-78 | the serialized selectors and description sit under their field names |
| ApiTypes.EncodedTrailingFields | packages/actionbook-rs/src/api/types.rs:70-78 | so do the element type, methods and dependency |
| ApiTypes.InfoRoundTrip | packages/actionbook-rs/src/api/types.rs:70-78 | decoding what serialization writes gives back the element |
| ApiTypes.InfoSeqRoundTrip | packages/actionbook-rs/src/api/types.rs:70-78 | the array form of an element's six values decodes to the element, as the object form does |
| ApiTypes.InfoSeqLength | packages/actionbook-rs/src/api/types.rs:70-78 | six nulls decode to the element with every field absent; an array of any other length is refused |
| ApiTypes.FieldNames | packages/actionbook-rs/src/api/types.rs:86 | the names of an object's fields |
| ApiTypes.DecodeFieldsOk | packages/actionbook-rs/src/api/types.rs:86 | a map decodes exactly when every value does |
| ApiTypes.DecodeFieldsKeys | packages/actionbook-rs/src/api/types.rs:86 | its keys are the object's field names |
| ApiTypes.DecodeFieldsLastWins | packages/actionbook-rs/src/api/types.rs:86 | under a repeated name the last field wins |
| ApiTypes.DeserializeElements | packages/actionbook-rs/src/api/types.rs:104-131 | absent or null is None; a string is parsed and then decoded; an object is decoded directly; any other kind is an error |
| ApiTypes.StringAndObjectAgree | packages/actionbook-rs/src/api/types.rs:116-128 | a string holding an object decodes to the same elements as the object |
| ApiTypes.EncodedElements | packages/actionbook-rs/src/api/types.rs:122-128 | an object of serialized elements with distinct names decodes to exactly those elements |
| ExtensionInstaller.ExtensionDir | packages/actionbook-rs/src/browser/extension_installer.rs:121-123 | `<home>/.actionbook/extension`, and an error exactly when the home directory is unknown |
| ExtensionInstaller.ExtensionDirShape | packages/actionbook-rs/src/browser/extension_installer.rs:121-123 | the install directory ends in `.actionbook/extension` |
| ExtensionInstaller.MigrationCourse | packages/actionbook-rs/src/browser/extension_installer.rs:66-118 | nothing to do without a legacy directory on disk or with the new one present; a copy exactly when the rename fails across devices; failure only for another rename error |
| ExtensionInstaller.CrossDeviceCodes | packages/actionbook-rs/src/browser/extension_installer.rs:36-39 | raw OS errors 18 and 17 count as cross-device, and no others |
| ExtensionInstaller.ValidateDownloadUrl | packages/actionbook-rs/src/browser/extension_installer.rs:404-424 | only an https URL on GitHub's hosts passes; each refusal carries its own message |
| ExtensionInstaller.SubdomainsAllowed | packages/actionbook-rs/src/browser/extension_installer.rs:414 | both hosts and every subdomain of them are trusted |
| ExtensionInstaller.AllowedHostSuffix | packages/actionbook-rs/src/browser/extension_installer.rs:414 | every trusted host ends in an allowed name |
| ExtensionInstaller.LookalikeRefused | packages/actionbook-rs/src/browser/extension_installer.rs:747-751 | `not-github.com` and `evil.com` are refused |
| ExtensionInstaller.HttpRefused | packages/actionbook-rs/src/browser/extension_installer.rs:409-413 | plain HTTP is refused even for github.com |
| ExtensionInstaller.CheckDownload | packages/actionbook-rs/src/browser/extension_installer.rs:429-478 | the body is returned exactly when the request and status succeed, the declared length and the body both stay within 10 MiB, and the body reads |
| ExtensionInstaller.UndeclaredLengthCapped | packages/actionbook-rs/src/browser/extension_installer.rs:469-475 | a server that declares no length is still held to the cap |
| ExtensionInstaller.SaturatingAdd | packages/actionbook-rs/src/browser/extension_installer.rs:513 | `u64::saturating_add` |
| ExtensionInstaller.EntryStep | packages/actionbook-rs/src/browser/extension_installer.rs:504-569 | an entry the loop goes past is clean, its directory creation and write succeeded, and the running total grew by its size and stays within 50 MiB |
| ExtensionInstaller.StepGo | packages/actionbook-rs/src/browser/extension_installer.rs:504-569 | one entry lets the loop go on exactly when it is clean, its file-system calls succeed and it fits under the cap |
| ExtensionInstaller.ParentPath | packages/actionbook-rs/src/browser/extension_installer.rs:543 | `Path::parent` is the prefix before the last '/', or empty |
| ExtensionInstaller.ParentAncestry | packages/actionbook-rs/src/browser/extension_installer.rs:543-551 | the directories `create_dir_all` makes for a file's parent lie on the path to the file |
| ExtensionInstaller.StepChanges | packages/actionbook-rs/src/browser/extension_installer.rs:533-569 | one entry adds at most its own file and the directories on the path to it, stopping or not, and keeps every other file |
| ExtensionInstaller.ExtractFromOk | packages/actionbook-rs/src/browser/extension_installer.rs:504-560 | from any entry on, the loop succeeds exactly when every remaining entry is clean, its file-system calls succeed, and the true sum of the sizes stays within 50 MiB, so saturation lets no overflow through |
| ExtensionInstaller.ExtractOk | packages/actionbook-rs/src/browser/extension_installer.rs:485-572 | `extract_zip` succeeds exactly when the archive opens, the target can be created, every entry is clean with its file-system calls succeeding, and the sizes sum to at most 50 MiB |
| ExtensionInstaller.ExtractFromStaysInTarget | packages/actionbook-rs/src/browser/extension_installer.rs:519-569 | every file written is the target joined with an entry's enclosed name, every directory created lies on the path to one, whether or not the loop stops, and no other file changes |
| ExtensionInstaller.AncestryUnderTarget | packages/actionbook-rs/src/browser/extension_installer.rs:531-551 | a directory on the path to a name joined onto the target is the target, one of its ancestors, or inside it |
| ExtensionInstaller.ExtractStaysUnderTarget | packages/actionbook-rs/src/browser/extension_installer.rs:485-572 | every file `extract_zip` adds starts with `<target>/`, and every directory it adds does too or is the target or one of its ancestors |
| ExtensionInstaller.ExtensionDisk.constructor | packages/actionbook-rs/src/browser/extension_installer.rs:485 | the disk holds the given directories and files |
| ExtensionInstaller.ExtensionDisk.ExtractZip | packages/actionbook-rs/src/browser/extension_installer.rs:485-563 | the loop's result and the disk afterwards, including the directories made before a failing step, are what Extract describes |
| ExtensionInstaller.AtLeastTotal | packages/actionbook-rs/src/browser/extension_installer.rs:220 | the version order is reflexive, total and antisymmetric |
| ExtensionInstaller.InstallGate | packages/actionbook-rs/src/browser/extension_installer.rs:205-226 | with `force` or nothing installed the install goes ahead; an up-to-date refusal names both versions |
| ExtensionInstaller.InstallGateVersions | packages/actionbook-rs/src/browser/extension_installer.rs:205-226 | without `force` an installed extension is replaced exactly when the release is newer |
| ExtensionInstaller.SameVersionUpToDate | packages/actionbook-rs/src/browser/extension_installer.rs:220-225 | the same version again is refused as up to date |
| ExtensionInstaller.InstalledVersion | packages/actionbook-rs/src/browser/extension_installer.rs:135-146 | a version exactly when the manifest reads, parses and carries a string `version`, and then it is that string |
| ExtensionInstaller.CheckManifest | packages/actionbook-rs/src/browser/extension_installer.rs:252-278 | the unpacked manifest passes exactly when it reads, parses and carries the release's version; a different version is reported with both |

## Left out

- Browser and page I/O (Playwright in the tab server, chromiumoxide and CDP WebSocket calls in the CLI, the Camoufox web driver): each page call is an outcome parameter (`PageOutcome`, oracle functions), so navigation, clicks, typing and evaluation are modelled by what they return, not by what they do to a page.
- The JavaScript templates the CLI sends (the snapshot walk, selector resolution, stealth scripts, polling and inspection scripts) are strings run inside the page; only the Rust-side escaping that builds them is modelled.
- Concurrency: `asyncio.Lock`, `RwLock`, tokio channels, `select!`, signal handling and timeouts. Each handler is one atomic step over the state.
- Process and file-system control: the bridge lifecycle, `is_pid_alive`, writing the PID and port files (their formats are modelled), `copy_dir_recursive` and the directory moves of the extension migration (modelled as the course it takes), `Config::load`/`save` through figment, TOML and environment variables, and installing the native-messaging manifest.
- SetupMode.FileSystem.Write: the write cannot fail in the model; the `create_dir_all(parent)` and `fs::write` failures of `write_with_dirs`, which `write_file_idempotent` passes on, are not modelled.
- Network clients: the actionbook API client and the printing of `search`, `get` and `sources`, the HTTP branch of CDP endpoint resolution, the GitHub release query, and `launch`, `wait_for_cdp` and `get_cdp_url` of the launcher.
- Foreign libraries: serde_json string escaping (the model escapes as in section 7 of RFC 8259), URL parsing by `reqwest::Url` (its outcome is the `ParsedUrl` parameter), semver parsing (a parameter) and comparison (major, minor and patch only, without pre-release ordering), zip decoding and `enclosed_name` (the entries are given as data), `shellexpand` (modelled as expanding a leading `~`), and pydantic validation. The text of a `serde_json::Value` (`to_string`, used for `ReadResult`'s object results and `Session.ReplyValue`'s `JavaScriptError`) is modelled as the fields in held order with duplicates kept; serde_json writes a map with each key once, sorted unless `preserve_order` is enabled.
- Floating point and randomness: the human-behaviour timing and mouse paths, the weights of `weighted_choice`, viewport coordinates.
- Fingerprint.FingerprintGenerator.WeightedChoice: the weighted draw is modelled as a raw draw reduced modulo the table size, so the model states which table entry is picked but not the probabilities the weights give.
- Case mapping and trimming: Python `.lower()` and Rust `to_lowercase` are modelled as ASCII lower-casing; trimming uses the Unicode White_Space set of Rust's `char::is_whitespace`.
- The order of `HashMap` iteration (the order profiles are listed in, the order pending requests are failed in on disconnect) is not modelled; maps are Dafny `map`s without order.
- Config.BrowserConfig: the `backend` field (`BrowserBackend`, cdp or camofox) is not modelled because no modelled operation reads it.
- ProfileCommands.AutoPort: `max_port + 1` wraps at 65536 as in a release build; a debug build panics instead.
- Session.ForwardSlot: `current_index + 1` at `i64::MAX` wraps to `i64::MIN` as in a release build; a debug build panics instead.
- NativeMessaging.Frame: the length prefix is `len as u32`, modelled as the length modulo 2^32.
- Launcher.DebugPath: the `{:?}` form of a path is modelled as the path in double quotes, without the escaping `Debug` applies to quotes and backslashes.
- ApiTypes.DecodeInfo: a JSON object that repeats a field name is an error for serde's derived `Deserialize` on the string route of `DeserializeElements`; the model reads the first occurrence. On the `Value::Object` route serde_json has already kept only the last value of a repeated name, so there the model reads the first where the source reads the last.
- ExtensionInstaller.EntryStep: the file system's answers are given per path (`FsAnswers`); a failing `create_dir_all` is modelled as creating nothing, and `.` or `..` components inside an enclosed name are not resolved when the directories on its path are listed.
- Terminal UI, printing, interactive prompts and sleeps; prompt answers are parameters of the setup operations.
- The error enum: `Errors` carries the extension-related variants the commands construct, which the shipped `error.rs` does not declare.
- The `SearchActionsParams` builder of `search.rs`, `get_or_create_session` and `close_session` of the session manager, and `find_browser_in_path` (it runs `which`).
- The base64 encoding of screenshots: the tab server's `screenshot` and the mock's fixed PNG are kept as bytes.
- The "Extension connected" message printed after the connection notice.
- Thin delegation layers (the command router, the isolated backend, the FastAPI route wrappers) and the demo and test scripts.

## Findings

| source | as written | input that shows it | evidently intended | confidence | as-written member | corrected member |
|---|---|---|---|---|---|---|
| packages/actionbook-rs/src/browser/discovery.rs:88 | the macOS candidate `~/Applications/Google Chrome.app/...` is checked with `PathBuf::exists`, which does not expand `~` (the same holds at lines 95, 102, 109 and 116) | a Chrome installed only at `<home>/Applications/Google Chrome.app` is not found | `~` stands for the user's home directory | not executed | Discovery.HomeApplicationsMissed | Discovery.DiscoverAllBrowsers |
