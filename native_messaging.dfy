/**
 * The Chrome native messaging host. Each message is a 4-byte little-endian
 * length followed by that many bytes of JSON; the host answers one request
 * with the bridge's port and state, and the manifest registers it for the
 * extension.
 */
module NativeMessaging {
  import opened Wrappers
  import opened Json
  import ExtensionBridge

  newtype byte = x: int | 0 <= x < 256

  const NativeHostName: string := "com.actionbook.bridge"
  const DefaultBridgePort: nat := 19222
  /** Chrome's cap on a message, checked before the payload is read. */
  const MaxMessageSize: nat := 1_048_576
  const U32Modulus: nat := 0x1_0000_0000

  /** `u32::to_le_bytes`. */
  function LeBytes(n: nat): (r: seq<byte>)
    requires n < U32Modulus
    ensures |r| == 4
  {
    var q1 := n / 256;
    var q2 := q1 / 256;
    [(n % 256) as byte, (q1 % 256) as byte, (q2 % 256) as byte, (q2 / 256) as byte]
  }

  /** `u32::from_le_bytes`. */
  function LeValue(b: seq<byte>): (n: nat)
    requires |b| == 4
    ensures n < U32Modulus
  {
    b[0] as nat + 256 * (b[1] as nat) + 65536 * (b[2] as nat) + 16777216 * (b[3] as nat)
  }

  lemma LeRoundTrip(n: nat)
    requires n < U32Modulus
    ensures LeValue(LeBytes(n)) == n
  {
    var q1 := n / 256;
    var q2 := q1 / 256;
    assert n == n % 256 + 256 * q1;
    assert q1 == q1 % 256 + 256 * q2;
    assert q2 == q2 % 256 + 256 * (q2 / 256);
  }

  /** The bytes `write_message` emits: the length, cut to 32 bits by `as u32`, then the payload. */
  function Frame(payload: seq<byte>): (r: seq<byte>)
  {
    LeBytes(|payload| % U32Modulus) + payload
  }

  datatype ReadError = UnexpectedEof | MessageTooLarge

  /**
   * What `read_message` makes of the bytes left on its input, and how many
   * of them it consumes: a failed `read_exact` takes whatever is left, and an
   * oversized length stops after the prefix.
   */
  function ReadFrame(s: seq<byte>): (r: (Result<seq<byte>, ReadError>, nat))
    ensures r.1 <= |s|
  {
    if |s| < 4 then (Err(UnexpectedEof), |s|)
    else
      var n := LeValue(s[..4]);
      if n > MaxMessageSize then (Err(MessageTooLarge), 4)
      else if |s| - 4 < n then (Err(UnexpectedEof), |s|)
      else (Ok(s[4..4 + n]), 4 + n)
  }

  /** Reading back what was written gives the payload, and stops right after it. */
  lemma FrameRoundTrip(payload: seq<byte>, rest: seq<byte>)
    requires |payload| <= MaxMessageSize
    ensures ReadFrame(Frame(payload) + rest) == (Ok(payload), 4 + |payload|)
  {
    var s := Frame(payload) + rest;
    assert s[..4] == LeBytes(|payload|);
    LeRoundTrip(|payload|);
    assert s[4..4 + |payload|] == payload;
  }

  /** A length prefix above the cap is refused before any payload byte is read. */
  lemma OversizedRejected(prefix: seq<byte>, rest: seq<byte>)
    requires |prefix| == 4 && LeValue(prefix) > MaxMessageSize
    ensures ReadFrame(prefix + rest) == (Err(MessageTooLarge), 4)
  {
    assert (prefix + rest)[..4] == prefix;
  }

  /** The host's standard input: the bytes sent and how far they have been read. */
  class InputStream {
    var data: seq<byte>
    var pos: nat

    ghost predicate Valid()
      reads this
    {
      pos <= |data|
    }

    constructor (data: seq<byte>)
      ensures Valid() && this.data == data && pos == 0
    {
      this.data := data;
      pos := 0;
    }

    /** `read_exact`: fill buf byte by byte, or fail at the end of input. */
    method ReadExact(buf: array<byte>) returns (ok: bool)
      requires Valid()
      modifies this, buf
      ensures Valid() && data == old(data)
      ensures ok <==> old(pos) + buf.Length <= |data|
      ensures ok ==> pos == old(pos) + buf.Length && buf[..] == data[old(pos)..pos]
      ensures !ok ==> pos == |data|
    {
      if |data| - pos < buf.Length {
        pos := |data|;
        return false;
      }
      var i := 0;
      while i < buf.Length
        invariant 0 <= i <= buf.Length
        invariant pos == old(pos) + i && data == old(data)
        invariant buf[..i] == data[old(pos)..pos]
      {
        buf[i] := data[pos];
        pos := pos + 1;
        i := i + 1;
      }
      return true;
    }
  }

  /** `read_message`, without the JSON decoding of the payload. */
  method ReadMessage(input: InputStream) returns (r: Result<seq<byte>, ReadError>)
    requires input.Valid()
    modifies input
    ensures input.Valid() && input.data == old(input.data)
    ensures (r, input.pos - old(input.pos)) == ReadFrame(old(input.data[input.pos..]))
  {
    ghost var s := input.data[input.pos..];
    var lenBytes := new byte[4];
    var ok := input.ReadExact(lenBytes);
    if !ok {
      return Err(UnexpectedEof);
    }
    assert lenBytes[..] == s[..4];
    var len := LeValue(lenBytes[..]);
    if len > MaxMessageSize {
      return Err(MessageTooLarge);
    }
    var buf := new byte[len];
    ok := input.ReadExact(buf);
    if !ok {
      return Err(UnexpectedEof);
    }
    assert buf[..] == s[4..4 + len];
    r := Ok(buf[..]);
  }

  /** The host's standard output. */
  class OutputStream {
    var data: seq<byte>

    constructor ()
      ensures data == []
    {
      data := [];
    }

    /** `write_all`. */
    method WriteAll(bytes: seq<byte>)
      modifies this
      ensures data == old(data) + bytes
    {
      data := data + bytes;
    }
  }

  /** `write_message`, given the serialized payload. */
  method WriteMessage(output: OutputStream, payload: seq<byte>)
    modifies output
    ensures output.data == old(output.data) + Frame(payload)
  {
    var len := |payload| % U32Modulus;
    output.WriteAll(LeBytes(len));
    output.WriteAll(payload);
  }

  // ---------------------------------------------------------------------------
  // Answering the extension
  // ---------------------------------------------------------------------------

  const BridgeNotRunningMessage: string := "Bridge is not running. It will auto-start when you run browser commands."

  /** The request type, "" when missing or not a string. */
  function RequestType(msg: Json): (r: string)
    ensures AsStr(Get(msg, "type")).Some? ==> r == AsStr(Get(msg, "type")).value
    ensures AsStr(Get(msg, "type")).None? ==> r == ""
  {
    AsStr(Get(msg, "type")).UnwrapOr("")
  }

  function BridgeInfo(port: nat): Json
  {
    JObj([("type", JStr("bridge_info")), ("port", JNum(port)), ("bridge_running", JBool(true))])
  }

  function BridgeNotRunning(port: nat): Json
  {
    JObj([("type", JStr("error")), ("error", JStr("bridge_not_running")),
          ("message", JStr(BridgeNotRunningMessage)), ("port", JNum(port))])
  }

  function UnknownType(msgType: string): Json
  {
    JObj([("type", JStr("error")), ("error", JStr("unknown_type")),
          ("message", JStr("Unknown message type: " + msgType))])
  }

  /**
   * The answer `run` writes. portFile is what the port file holds, and
   * running(p) whether a bridge answers on port p.
   */
  function Respond(msg: Json, portFile: Option<nat>, running: nat -> bool): (r: Json)
  {
    var t := RequestType(msg);
    if t == "get_bridge_info" || t == "get_token" then
      var port := portFile.UnwrapOr(DefaultBridgePort);
      if running(port) then BridgeInfo(port) else BridgeNotRunning(port)
    else UnknownType(t)
  }

  lemma BridgeInfoFields(port: nat)
    ensures Get(BridgeInfo(port), "type") == Some(JStr("bridge_info"))
    ensures Get(BridgeInfo(port), "port") == Some(JNum(port))
    ensures Get(BridgeInfo(port), "bridge_running") == Some(JBool(true))
  {
    var f := BridgeInfo(port).fields;
    assert FindFrom(f, "port", 1) == Some(1);
    assert FindFrom(f, "bridge_running", 2) == Some(2);
    assert FindFrom(f, "bridge_running", 1) == Some(2);
  }

  lemma BridgeNotRunningFields(port: nat)
    ensures Get(BridgeNotRunning(port), "type") == Some(JStr("error"))
    ensures Get(BridgeNotRunning(port), "error") == Some(JStr("bridge_not_running"))
    ensures Get(BridgeNotRunning(port), "port") == Some(JNum(port))
  {
    var f := BridgeNotRunning(port).fields;
    assert FindFrom(f, "error", 1) == Some(1);
    assert FindFrom(f, "port", 3) == Some(3);
    assert FindFrom(f, "port", 2) == Some(3);
    assert FindFrom(f, "port", 1) == Some(3);
  }

  lemma UnknownTypeFields(msgType: string)
    ensures Get(UnknownType(msgType), "type") == Some(JStr("error"))
    ensures Get(UnknownType(msgType), "error") == Some(JStr("unknown_type"))
    ensures Get(UnknownType(msgType), "message") == Some(JStr("Unknown message type: " + msgType))
  {
    var f := UnknownType(msgType).fields;
    assert FindFrom(f, "error", 1) == Some(1);
    assert FindFrom(f, "message", 2) == Some(2);
    assert FindFrom(f, "message", 1) == Some(2);
  }

  /**
   * Both request types are answered with the bridge's port (19222 without a
   * port file): `bridge_info` when it runs, the `bridge_not_running` error
   * otherwise; any other type is an `unknown_type` error naming it.
   */
  lemma RespondCases(msg: Json, portFile: Option<nat>, running: nat -> bool)
    ensures var t := RequestType(msg);
      var port := if portFile.Some? then portFile.value else DefaultBridgePort;
      var r := Respond(msg, portFile, running);
      ((t == "get_bridge_info" || t == "get_token") ==>
        Get(r, "port") == Some(JNum(port))
        && (Get(r, "type") == Some(JStr("bridge_info")) <==> running(port))
        && (!running(port) ==> Get(r, "error") == Some(JStr("bridge_not_running"))))
      && (t != "get_bridge_info" && t != "get_token" ==>
        Get(r, "error") == Some(JStr("unknown_type"))
        && Get(r, "message") == Some(JStr("Unknown message type: " + t)))
  {
    var port := if portFile.Some? then portFile.value else DefaultBridgePort;
    BridgeInfoFields(port);
    BridgeNotRunningFields(port);
    UnknownTypeFields(RequestType(msg));
  }

  // ---------------------------------------------------------------------------
  // The host manifest
  // ---------------------------------------------------------------------------

  const ManifestDescription: string := "Actionbook CLI - bridge connection host for the browser extension"

  function ExtensionOrigin(): string
  {
    "chrome-extension://" + ExtensionBridge.AllowedExtensionId + "/"
  }

  /** `generate_manifest`. */
  function GenerateManifest(binaryPath: string): (r: Json)
  {
    JObj([("name", JStr(NativeHostName)), ("description", JStr(ManifestDescription)),
          ("path", JStr(binaryPath)), ("type", JStr("stdio")),
          ("allowed_origins", JArr([JStr(ExtensionOrigin())]))])
  }

  /**
   * The manifest names the host, the given binary and the stdio transport,
   * and allows exactly one origin, the extension's, which the bridge accepts.
   */
  lemma ManifestFields(binaryPath: string)
    ensures var m := GenerateManifest(binaryPath);
      Get(m, "name") == Some(JStr(NativeHostName))
      && Get(m, "path") == Some(JStr(binaryPath))
      && Get(m, "type") == Some(JStr("stdio"))
      && Get(m, "allowed_origins") == Some(JArr([JStr(ExtensionOrigin())]))
    ensures ExtensionBridge.IsOriginAllowed(Some(ExtensionOrigin()))
  {
    var f := GenerateManifest(binaryPath).fields;
    assert f[0].0[0] == 'n' && f[1].0[0] == 'd' && f[2].0[0] == 'p' && f[3].0[0] == 't' && f[4].0[0] == 'a';
    FindFieldAt(f, "name", 0);
    FindFieldAt(f, "path", 2);
    FindFieldAt(f, "type", 3);
    FindFieldAt(f, "allowed_origins", 4);
    ExtensionBridge.ExtensionAccepted("/");
  }
}
