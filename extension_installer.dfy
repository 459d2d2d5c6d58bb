/**
 * Installing the browser extension from a GitHub release: where it lives,
 * the migration from the legacy directory, which download URLs are
 * trusted, the size caps on the download and on the unpacked archive, the
 * zip-slip guard, and the version checks around an install.
 */
module ExtensionInstaller {
  import opened Wrappers
  import opened Text
  import opened Json
  import opened Errors
  import Config

  // ---------------------------------------------------------------------
  // Locations and migration
  // ---------------------------------------------------------------------

  /** `extension_dir`: `<home>/.actionbook/extension`, an error when the home directory is unknown. */
  function ExtensionDir(home: Option<string>): (r: Result<string, ActionbookError>)
    ensures r.Err? <==> home.None?
    ensures r.Err? ==> r.error == ExtensionError("Could not determine home directory")
  {
    match home
    case None => Err(ExtensionError("Could not determine home directory"))
    case Some(h) => Ok(Config.JoinPath(Config.JoinPath(h, ".actionbook"), "extension"))
  }

  /** Joining a name with no leading slash onto a path ends the result in that name. */
  lemma JoinPathEnds(base: string, part: string)
    ensures EndsWith(Config.JoinPath(base, part), part)
    ensures base != [] && base[|base| - 1] != '/' ==> Config.JoinPath(base, part) == base + "/" + part
  {
    var r := Config.JoinPath(base, part);
    assert r[|r| - |part|..] == part;
  }

  lemma EndsWithGrow(x: string, y: string, z: string)
    requires EndsWith(x, y)
    ensures EndsWith(x + z, y + z)
  {
    assert (x + z)[|x + z| - |y + z|..] == x[|x| - |y|..] + z;
  }

  /** The install directory always ends in `.actionbook/extension`. */
  lemma ExtensionDirShape(home: string)
    ensures EndsWith(ExtensionDir(Some(home)).value, ".actionbook/extension")
  {
    var base := Config.JoinPath(home, ".actionbook");
    JoinPathEnds(home, ".actionbook");
    assert base[|base| - 1] == 'k';
    JoinPathEnds(base, "extension");
    EndsWithGrow(base, ".actionbook", "/extension");
    assert base + "/" + "extension" == base + "/extension";
    assert ".actionbook" + "/extension" == ".actionbook/extension";
  }

  /** `is_cross_device_error`: the raw OS error is EXDEV (18) or Windows' ERROR_NOT_SAME_DEVICE (17). */
  predicate IsCrossDeviceError(rawOsError: Option<int>)
  {
    match rawOsError
    case Some(code) => code == 18 || code == 17
    case None => false
  }

  /** What `migrate_legacy_extension_if_needed` does. */
  datatype Migration = NothingToDo | Renamed | CopiedAcross | MigrationFailed

  /**
   * The migration's course: nothing without a legacy directory on disk or
   * with the new one already present; otherwise a rename, and when the
   * rename fails (`renameError` holds its raw OS error), a copy only for a
   * cross-device failure.
   */
  function MigrationCourse(legacyDir: Option<string>, legacyExists: bool, targetExists: bool,
                           renameError: Option<Option<int>>): (m: Migration)
    ensures m == NothingToDo <==> legacyDir.None? || !legacyExists || targetExists
    ensures m == CopiedAcross <==> (legacyDir.Some? && legacyExists && !targetExists
                                   && renameError.Some? && IsCrossDeviceError(renameError.value))
    ensures m == MigrationFailed ==> renameError.Some? && !IsCrossDeviceError(renameError.value)
  {
    if legacyDir.None? || !legacyExists || targetExists then NothingToDo
    else match renameError
      case None => Renamed
      case Some(raw) => if IsCrossDeviceError(raw) then CopiedAcross else MigrationFailed
  }

  /** The errors the installer's tests name: 18 and 17 count as cross-device, 2 does not. */
  lemma CrossDeviceCodes()
    ensures IsCrossDeviceError(Some(18)) && IsCrossDeviceError(Some(17))
    ensures !IsCrossDeviceError(Some(2)) && !IsCrossDeviceError(None)
    ensures forall code :: IsCrossDeviceError(Some(code)) <==> code in {17, 18}
  {
  }

  // ---------------------------------------------------------------------
  // validate_download_url
  // ---------------------------------------------------------------------

  const AllowedDownloadHosts: seq<string> := ["github.com", "githubusercontent.com"]

  /** The test for one allowed name: the host is that name, or ends in a dot and that name. */
  predicate HostMatches(host: string, allowed: string)
  {
    host == allowed || EndsWith(host, "." + allowed)
  }

  /** A host is trusted when it matches one of the allowed names. */
  predicate HostAllowed(host: string)
  {
    exists k :: 0 <= k < |AllowedDownloadHosts| && HostMatches(host, AllowedDownloadHosts[k])
  }

  lemma EndsWithAppend(x: string, y: string)
    ensures EndsWith(x + y, y)
  {
    assert (x + y)[|x + y| - |y|..] == y;
  }

  lemma EndsWithTail(s: string, c: char, y: string)
    requires EndsWith(s, [c] + y)
    ensures EndsWith(s, y)
  {
    assert s[|s| - |y|..] == s[|s| - |[c] + y|..][1..];
  }

  /** What `reqwest::Url::parse` yields that the rule looks at: the scheme and the host, if any. */
  datatype ParsedUrl = ParsedUrl(scheme: string, host: Option<string>)

  /** `validate_download_url`, given the URL parser's outcome. */
  function ValidateDownloadUrl(url: Result<ParsedUrl, string>): (r: Result<(), ActionbookError>)
    ensures r.Ok? <==> url.Ok? && url.value.scheme == "https" && HostAllowed(url.value.host.UnwrapOr(""))
    ensures url.Err? ==> r == Err(ExtensionError("Invalid download URL: " + url.error))
    ensures url.Ok? && url.value.scheme != "https" ==> r == Err(ExtensionError("Download URL must use HTTPS"))
    ensures url.Ok? && url.value.scheme == "https" && r.Err? ==>
      r == Err(ExtensionError("Download URL host '" + url.value.host.UnwrapOr("") + "' is not allowed (expected GitHub)"))
  {
    match url
    case Err(e) => Err(ExtensionError("Invalid download URL: " + e))
    case Ok(u) =>
      if u.scheme != "https" then Err(ExtensionError("Download URL must use HTTPS"))
      else
        var host := u.host.UnwrapOr("");
        if !HostAllowed(host) then Err(ExtensionError("Download URL host '" + host + "' is not allowed (expected GitHub)"))
        else Ok(())
  }

  /** Both allowed hosts and every subdomain of them are trusted. */
  lemma SubdomainsAllowed(sub: string)
    ensures HostAllowed("github.com") && HostAllowed("githubusercontent.com")
    ensures HostAllowed(sub + ".github.com") && HostAllowed(sub + ".githubusercontent.com")
  {
    assert HostMatches("github.com", AllowedDownloadHosts[0]);
    assert HostMatches("githubusercontent.com", AllowedDownloadHosts[1]);
    assert "." + "github.com" == ".github.com";
    assert "." + "githubusercontent.com" == ".githubusercontent.com";
    EndsWithAppend(sub, ".github.com");
    EndsWithAppend(sub, ".githubusercontent.com");
    assert HostMatches(sub + ".github.com", AllowedDownloadHosts[0]);
    assert HostMatches(sub + ".githubusercontent.com", AllowedDownloadHosts[1]);
  }

  /** Every trusted host ends in one of the allowed names. */
  lemma AllowedHostSuffix(host: string)
    requires HostAllowed(host)
    ensures EndsWith(host, "github.com") || EndsWith(host, "githubusercontent.com")
  {
    var k :| 0 <= k < |AllowedDownloadHosts| && HostMatches(host, AllowedDownloadHosts[k]);
    var a := AllowedDownloadHosts[k];
    assert a == "github.com" || a == "githubusercontent.com";
    if host == a {
      assert host[|host| - |a|..] == a;
    } else {
      assert "." + a == ['.'] + a;
      EndsWithTail(host, '.', a);
    }
  }

  /** A host that merely ends in an allowed name without a dot before it is refused. */
  lemma LookalikeRefused()
    ensures !HostAllowed("not-github.com") && !HostAllowed("evil.com")
  {
    assert "not-github.com"[3] == '-';
    assert AllowedDownloadHosts[0] == "github.com";
    assert AllowedDownloadHosts[1] == "githubusercontent.com";
    assert "not-github.com" != "github.com";
    assert |"not-github.com"| < |".githubusercontent.com"|;
    assert "not-github.com"[|"not-github.com"| - |".github.com"|..] != ".github.com" by {
      assert "not-github.com"[|"not-github.com"| - |".github.com"|] == '-';
    }
    assert |"evil.com"| < |".github.com"| && |"evil.com"| != |"github.com"|;
  }

  /** Plain HTTP is refused even for github.com. */
  lemma HttpRefused(host: Option<string>)
    ensures ValidateDownloadUrl(Ok(ParsedUrl("http", host))).Err?
  {
  }

  // ---------------------------------------------------------------------
  // download_asset
  // ---------------------------------------------------------------------

  const MAX_DOWNLOAD_SIZE: nat := 10 * 1024 * 1024

  /** The HTTP exchange of a download: no answer, or a status, a declared length and the body read. */
  datatype DownloadResponse =
    | SendFailed(reason: string)
    | Received(success: bool, status: string, contentLength: Option<nat>, body: Result<seq<bv8>, string>)

  function TooLarge(n: nat): string
  {
    "Extension download too large (" + NatToString(n) + " bytes, max " + NatToString(MAX_DOWNLOAD_SIZE) + " bytes)"
  }

  /**
   * `download_asset`: fails on a failed request or status, on a declared
   * length over 10 MiB, on an unreadable body, and on a body over 10 MiB.
   */
  function CheckDownload(url: string, resp: DownloadResponse): (r: Result<seq<bv8>, ActionbookError>)
    ensures r.Ok? <==> (resp.Received? && resp.success
      && (resp.contentLength.None? || resp.contentLength.value <= MAX_DOWNLOAD_SIZE)
      && resp.body.Ok? && |resp.body.value| <= MAX_DOWNLOAD_SIZE)
    ensures r.Ok? ==> r.value == resp.body.value && |r.value| <= MAX_DOWNLOAD_SIZE
    ensures resp.Received? && resp.success && resp.contentLength.Some? && resp.contentLength.value > MAX_DOWNLOAD_SIZE ==>
      r == Err(ExtensionError(TooLarge(resp.contentLength.value) + ". This may indicate a corrupted release"))
  {
    match resp
    case SendFailed(e) => Err(ExtensionError("Failed to download extension: " + e))
    case Received(success, status, declared, body) =>
      if !success then
        Err(ExtensionError("Download failed with status " + status + ". Try downloading manually from " + url))
      else if declared.Some? && declared.value > MAX_DOWNLOAD_SIZE then
        Err(ExtensionError(TooLarge(declared.value) + ". This may indicate a corrupted release"))
      else match body
        case Err(e) => Err(ExtensionError("Failed to read download response: " + e))
        case Ok(bytes) =>
          if |bytes| > MAX_DOWNLOAD_SIZE then Err(ExtensionError(TooLarge(|bytes|)))
          else Ok(bytes)
  }

  /** A server that declares no length is still held to the cap by the bytes it sends. */
  lemma UndeclaredLengthCapped(url: string, status: string, bytes: seq<bv8>)
    requires |bytes| > MAX_DOWNLOAD_SIZE
    ensures CheckDownload(url, Received(true, status, None, Ok(bytes))) == Err(ExtensionError(TooLarge(|bytes|)))
  {
  }

  // ---------------------------------------------------------------------
  // extract_zip
  // ---------------------------------------------------------------------

  const MAX_UNCOMPRESSED_SIZE: nat := 50 * 1024 * 1024

  /** `u64::saturating_add`. */
  function SaturatingAdd(a: nat, b: nat): (r: nat)
    requires a <= U64_MAX && b <= U64_MAX
    ensures r <= U64_MAX
    ensures a + b <= U64_MAX ==> r == a + b
    ensures a + b > U64_MAX ==> r == U64_MAX
  {
    if a + b > U64_MAX then U64_MAX else a + b
  }

  /**
   * An archive entry as the zip reader presents it: its stored name, its
   * uncompressed size, the name `enclosed_name` gives (None for a name that
   * would escape the target), whether it is a directory, and its contents.
   */
  datatype ZipEntry = ZipEntry(name: string, size: nat, enclosedName: Option<string>, isDir: bool,
                               data: Result<seq<bv8>, string>)

  /** Entry sizes are `u64`s. */
  predicate SizesFit(entries: seq<Result<ZipEntry, string>>)
  {
    forall i :: 0 <= i < |entries| && entries[i].Ok? ==> entries[i].value.size <= U64_MAX
  }

  /** The directories and files on disk. */
  datatype Tree = Tree(dirs: set<string>, files: map<string, seq<bv8>>)

  /**
   * The file system's answers: the error text `fs::create_dir_all` or
   * `fs::write` reports for a path, or None when the call succeeds.
   */
  datatype FsAnswers = FsAnswers(mkdirError: string -> Option<string>, writeError: string -> Option<string>)

  /** `Path::parent`: everything before the last '/', or "" for a bare name. */
  function ParentPath(p: string): (r: string)
    ensures r == [] || (|r| < |p| && p[|r|] == '/' && r == p[..|r|])
  {
    match RFindChar(p, '/')
    case None => []
    case Some(k) => p[..k]
  }

  /** The directories `create_dir_all(d)` leaves behind: d and every ancestor it names. */
  function Ancestry(d: string): set<string>
  {
    if d == [] then {} else {d} + set k | 0 < k < |d| && d[k] == '/' :: d[..k]
  }

  /** A file's parent and the parent's ancestors are ancestors of the file's own path. */
  lemma ParentAncestry(p: string)
    ensures Ancestry(ParentPath(p)) <= Ancestry(p)
  {
    var q := ParentPath(p);
    if q != [] {
      forall x | x in Ancestry(q)
        ensures x in Ancestry(p)
      {
        if x != q {
          var k :| 0 < k < |q| && q[k] == '/' && x == q[..k];
          assert p[k] == '/' && x == p[..k];
        }
      }
    }
  }

  /** What processing one entry does: stop with an error and the tree so far, or go on with a new total and tree. */
  datatype Step = Stop(error: ActionbookError, tree: Tree) | Go(total: nat, tree: Tree)

  const ZipBomb: ActionbookError :=
    ExtensionError("Total uncompressed size exceeds " + NatToString(MAX_UNCOMPRESSED_SIZE) + " bytes (zip bomb protection)")

  function MkdirFailed(path: string, e: string): ActionbookError
  {
    ExtensionError("Failed to create directory " + path + ": " + e)
  }

  /** The path an entry with a safe name goes to. */
  function OutPath(target: string, z: ZipEntry): string
    requires z.enclosedName.Some?
  {
    Config.JoinPath(target, z.enclosedName.value)
  }

  /** The file-system calls for a safe entry all succeed: its directory, or its parent and the write. */
  predicate IoClean(entry: Result<ZipEntry, string>, target: string, fs: FsAnswers)
  {
    entry.Ok? && entry.value.enclosedName.Some? &&
    var out := OutPath(target, entry.value);
    if entry.value.isDir then fs.mkdirError(out).None?
    else fs.mkdirError(ParentPath(out)).None? && fs.writeError(out).None?
  }

  /** An entry that can be unpacked: readable, with a safe name, and with readable contents if a file. */
  predicate Clean(entry: Result<ZipEntry, string>)
  {
    entry.Ok? && entry.value.enclosedName.Some? && (entry.value.isDir || entry.value.data.Ok?)
  }

  /**
   * The body of `extract_zip`'s loop for entry i: the size cap, the zip-slip
   * guard, then for a directory `create_dir_all`, and for a file
   * `create_dir_all` of its parent, reading its contents and writing them.
   */
  function EntryStep(i: nat, entry: Result<ZipEntry, string>, target: string, fs: FsAnswers, total: nat, tree: Tree): (s: Step)
    requires total <= U64_MAX && (entry.Ok? ==> entry.value.size <= U64_MAX)
    ensures s.Go? ==> s.total <= MAX_UNCOMPRESSED_SIZE && Clean(entry) && IoClean(entry, target, fs)
    ensures s.Go? ==> s.total == total + entry.value.size
  {
    match entry
    case Err(e) => Stop(ExtensionError("Failed to read zip entry " + NatToString(i) + ": " + e), tree)
    case Ok(z) =>
      var t := SaturatingAdd(total, z.size);
      if t > MAX_UNCOMPRESSED_SIZE then Stop(ZipBomb, tree)
      else if z.enclosedName.None? then
        Stop(ExtensionError("Zip entry '" + z.name + "' has an unsafe path — possible zip-slip attack"), tree)
      else
        var out := OutPath(target, z);
        if z.isDir then
          (match fs.mkdirError(out)
           case Some(e) => Stop(MkdirFailed(out, e), tree)
           case None => Go(t, tree.(dirs := tree.dirs + Ancestry(out))))
        else
          var parent := ParentPath(out);
          match fs.mkdirError(parent)
          case Some(e) => Stop(MkdirFailed(parent, e), tree)
          case None =>
            var withParent := tree.(dirs := tree.dirs + Ancestry(parent));
            match z.data
            case Err(e) => Stop(ExtensionError("Failed to read zip entry " + z.enclosedName.value + ": " + e), withParent)
            case Ok(bytes) =>
              match fs.writeError(out)
              case Some(e) => Stop(ExtensionError("Failed to write " + out + ": " + e), withParent)
              case None => Go(t, withParent.(files := withParent.files[out := bytes]))
  }

  /** The loop from entry i on, with the running total and the tree so far. */
  function ExtractFrom(entries: seq<Result<ZipEntry, string>>, target: string, fs: FsAnswers, i: nat, total: nat, tree: Tree)
    : (Result<(), ActionbookError>, Tree)
    requires i <= |entries| && total <= U64_MAX && SizesFit(entries)
    decreases |entries| - i
  {
    if i == |entries| then (Ok(()), tree)
    else match EntryStep(i, entries[i], target, fs, total, tree)
      case Stop(e, t) => (Err(e), t)
      case Go(t, next) => ExtractFrom(entries, target, fs, i + 1, t, next)
  }

  /** `extract_zip` on the archive reader's outcome: open it, create the target, then run the loop. */
  function Extract(archive: Result<seq<Result<ZipEntry, string>>, string>, target: string, fs: FsAnswers, tree: Tree)
    : (Result<(), ActionbookError>, Tree)
    requires archive.Ok? ==> SizesFit(archive.value)
  {
    match archive
    case Err(e) => (Err(ExtensionError("The downloaded extension file appears corrupted: " + e)), tree)
    case Ok(entries) =>
      match fs.mkdirError(target)
      case Some(e) => (Err(MkdirFailed(target, e)), tree)
      case None => ExtractFrom(entries, target, fs, 0, 0, tree.(dirs := tree.dirs + Ancestry(target)))
  }

  function SizeOf(entry: Result<ZipEntry, string>): nat
  {
    if entry.Ok? then entry.value.size else 0
  }

  /** The plain (unbounded) sum of the sizes of entries i and after. */
  function SizeFrom(entries: seq<Result<ZipEntry, string>>, i: nat): nat
    requires i <= |entries|
    decreases |entries| - i
  {
    if i == |entries| then 0 else SizeOf(entries[i]) + SizeFrom(entries, i + 1)
  }

  /**
   * From entry i with a running total within the cap, the loop succeeds
   * exactly when every remaining entry is clean, its file-system calls all
   * succeed, and the total plus the real sum of their sizes stays within
   * 50 MiB: saturation never lets an overflowing sum through.
   */
  lemma {:induction false} ExtractFromOk(entries: seq<Result<ZipEntry, string>>, target: string, fs: FsAnswers,
                                         i: nat, total: nat, tree: Tree)
    requires i <= |entries| && total <= MAX_UNCOMPRESSED_SIZE && SizesFit(entries)
    ensures ExtractFrom(entries, target, fs, i, total, tree).0.Ok? <==>
      (forall j :: i <= j < |entries| ==> Clean(entries[j]) && IoClean(entries[j], target, fs))
      && total + SizeFrom(entries, i) <= MAX_UNCOMPRESSED_SIZE
    decreases |entries| - i
  {
    if i < |entries| {
      var s := EntryStep(i, entries[i], target, fs, total, tree);
      StepGo(i, entries[i], target, fs, total, tree);
      assert SizeFrom(entries, i) == SizeOf(entries[i]) + SizeFrom(entries, i + 1);
      if s.Go? {
        ExtractFromOk(entries, target, fs, i + 1, s.total, s.tree);
        assert ExtractFrom(entries, target, fs, i, total, tree) == ExtractFrom(entries, target, fs, i + 1, s.total, s.tree);
      } else {
        assert ExtractFrom(entries, target, fs, i, total, tree).0.Err?;
      }
    }
  }

  /** One entry lets the loop go on exactly when it is clean, its calls succeed and it fits under the cap. */
  lemma StepGo(i: nat, entry: Result<ZipEntry, string>, target: string, fs: FsAnswers, total: nat, tree: Tree)
    requires total <= MAX_UNCOMPRESSED_SIZE && (entry.Ok? ==> entry.value.size <= U64_MAX)
    ensures EntryStep(i, entry, target, fs, total, tree).Go? <==>
      Clean(entry) && IoClean(entry, target, fs) && total + entry.value.size <= MAX_UNCOMPRESSED_SIZE
  {
  }

  /**
   * `extract_zip` succeeds exactly when the archive opens, the target can be
   * created, every entry is clean with its file-system calls succeeding, and
   * the sizes sum to at most 50 MiB.
   */
  lemma ExtractOk(archive: Result<seq<Result<ZipEntry, string>>, string>, target: string, fs: FsAnswers, tree: Tree)
    requires archive.Ok? ==> SizesFit(archive.value)
    ensures Extract(archive, target, fs, tree).0.Ok? <==>
      archive.Ok? && fs.mkdirError(target).None?
      && (forall j :: 0 <= j < |archive.value| ==> Clean(archive.value[j]) && IoClean(archive.value[j], target, fs))
      && SizeFrom(archive.value, 0) <= MAX_UNCOMPRESSED_SIZE
  {
    if archive.Ok? && fs.mkdirError(target).None? {
      ExtractFromOk(archive.value, target, fs, 0, 0, tree.(dirs := tree.dirs + Ancestry(target)));
    }
  }

  /** p is where one of entries i and after, passing the zip-slip guard, goes under the target. */
  predicate WrittenBy(entries: seq<Result<ZipEntry, string>>, target: string, i: nat, p: string)
    requires i <= |entries|
  {
    exists j :: i <= j < |entries| && entries[j].Ok? && entries[j].value.enclosedName.Some?
      && p == OutPath(target, entries[j].value)
  }

  /** p is a directory on the way to where one of entries i and after goes. */
  predicate DirMadeBy(entries: seq<Result<ZipEntry, string>>, target: string, i: nat, p: string)
    requires i <= |entries|
  {
    exists j :: i <= j < |entries| && entries[j].Ok? && entries[j].value.enclosedName.Some?
      && p in Ancestry(OutPath(target, entries[j].value))
  }

  /** One entry adds at most its own file and directories on the path to it, and keeps the rest. */
  lemma StepChanges(i: nat, entry: Result<ZipEntry, string>, target: string, fs: FsAnswers, total: nat, tree: Tree)
    requires total <= U64_MAX && (entry.Ok? ==> entry.value.size <= U64_MAX)
    ensures var after := EntryStep(i, entry, target, fs, total, tree).tree;
      && tree.dirs <= after.dirs
      && (!(entry.Ok? && entry.value.enclosedName.Some?) ==> after == tree)
      && (entry.Ok? && entry.value.enclosedName.Some? ==>
        var out := OutPath(target, entry.value);
        && (forall p :: p in after.dirs && p !in tree.dirs ==> p in Ancestry(out))
        && (forall p :: p in after.files && p !in tree.files ==> p == out)
        && (forall p :: p in tree.files && p != out ==> p in after.files && after.files[p] == tree.files[p]))
  {
    if entry.Ok? && entry.value.enclosedName.Some? {
      ParentAncestry(OutPath(target, entry.value));
    }
  }

  /**
   * The zip-slip guard: every file the loop writes is the target joined
   * with an entry's enclosed name, every directory it creates lies on the
   * path to one, whether or not the loop stops, and nothing else changes.
   */
  lemma {:induction false} ExtractFromStaysInTarget(entries: seq<Result<ZipEntry, string>>, target: string, fs: FsAnswers,
                                                     i: nat, total: nat, tree: Tree)
    requires i <= |entries| && total <= U64_MAX && SizesFit(entries)
    ensures var after := ExtractFrom(entries, target, fs, i, total, tree).1;
      && (forall p :: p in after.files && p !in tree.files ==> WrittenBy(entries, target, i, p))
      && (forall p :: p in after.dirs && p !in tree.dirs ==> DirMadeBy(entries, target, i, p))
      && (forall p :: p in tree.files && !WrittenBy(entries, target, i, p) ==> p in after.files && after.files[p] == tree.files[p])
      && tree.dirs <= after.dirs
    decreases |entries| - i
  {
    if i < |entries| {
      var s := EntryStep(i, entries[i], target, fs, total, tree);
      StepChanges(i, entries[i], target, fs, total, tree);
      if entries[i].Ok? && entries[i].value.enclosedName.Some? {
        var out := OutPath(target, entries[i].value);
        assert WrittenBy(entries, target, i, out);
        forall p | p in s.tree.dirs && p !in tree.dirs
          ensures DirMadeBy(entries, target, i, p)
        {
          assert p in Ancestry(out);
        }
      }
      if s.Go? {
        StaysInTargetTail(entries, target, fs, i, s.total, s.tree);
      }
    }
  }

  /** The loop's changes from entry i + 1 on are also changes by entries i and after. */
  lemma StaysInTargetTail(entries: seq<Result<ZipEntry, string>>, target: string, fs: FsAnswers,
                          i: nat, total: nat, tree: Tree)
    requires i < |entries| && total <= U64_MAX && SizesFit(entries)
    ensures var after := ExtractFrom(entries, target, fs, i + 1, total, tree).1;
      && (forall p :: p in after.files && p !in tree.files ==> WrittenBy(entries, target, i, p))
      && (forall p :: p in after.dirs && p !in tree.dirs ==> DirMadeBy(entries, target, i, p))
      && (forall p :: p in tree.files && !WrittenBy(entries, target, i, p) ==> p in after.files && after.files[p] == tree.files[p])
      && tree.dirs <= after.dirs
    decreases |entries| - i, 0
  {
    ExtractFromStaysInTarget(entries, target, fs, i + 1, total, tree);
    forall p | WrittenBy(entries, target, i + 1, p)
      ensures WrittenBy(entries, target, i, p)
    {
      var j :| i + 1 <= j < |entries| && entries[j].Ok? && entries[j].value.enclosedName.Some?
        && p == OutPath(target, entries[j].value);
    }
    forall p | DirMadeBy(entries, target, i + 1, p)
      ensures DirMadeBy(entries, target, i, p)
    {
      var j :| i + 1 <= j < |entries| && entries[j].Ok? && entries[j].value.enclosedName.Some?
        && p in Ancestry(OutPath(target, entries[j].value));
    }
  }

  /**
   * Every directory on the path to a name joined onto the target is either
   * the target or one of its ancestors, or lies strictly inside the target.
   */
  lemma AncestryUnderTarget(target: string, name: string, p: string)
    requires target != [] && target[|target| - 1] != '/'
    requires p in Ancestry(Config.JoinPath(target, name))
    ensures p in Ancestry(target) || StartsWith(p, target + "/")
  {
    var full := Config.JoinPath(target, name);
    assert full == target + "/" + name;
    if p == full {
      if |p| > |target| {
        assert p[..|target| + 1] == target + "/";
      }
    } else {
      var k :| 0 < k < |full| && full[k] == '/' && p == full[..k];
      if k < |target| {
        assert target[k] == '/' && p == target[..k];
      } else if k == |target| {
        assert p == target;
      } else {
        assert p[..|target| + 1] == target + "/";
      }
    }
  }

  /**
   * Everything `extract_zip` adds lies inside the target: each new file
   * starts with `<target>/`, and each new directory does too or is the
   * target or one of its ancestors.
   */
  lemma ExtractStaysUnderTarget(archive: Result<seq<Result<ZipEntry, string>>, string>, target: string,
                                fs: FsAnswers, tree: Tree)
    requires archive.Ok? ==> SizesFit(archive.value)
    requires target != [] && target[|target| - 1] != '/'
    ensures var after := Extract(archive, target, fs, tree).1;
      && (forall p :: p in after.files && p !in tree.files ==> StartsWith(p, target + "/"))
      && (forall p :: p in after.dirs && p !in tree.dirs ==> p in Ancestry(target) || StartsWith(p, target + "/"))
  {
    if archive.Ok? && fs.mkdirError(target).None? {
      var entries := archive.value;
      var start := tree.(dirs := tree.dirs + Ancestry(target));
      ExtractFromStaysInTarget(entries, target, fs, 0, 0, start);
      var after := ExtractFrom(entries, target, fs, 0, 0, start).1;
      forall p | p in after.files && p !in tree.files
        ensures StartsWith(p, target + "/")
      {
        var j :| 0 <= j < |entries| && entries[j].Ok? && entries[j].value.enclosedName.Some?
          && p == OutPath(target, entries[j].value);
        assert p == target + "/" + entries[j].value.enclosedName.value;
        assert p[..|target| + 1] == target + "/";
      }
      forall p | p in after.dirs && p !in tree.dirs && p !in Ancestry(target)
        ensures StartsWith(p, target + "/")
      {
        var j :| 0 <= j < |entries| && entries[j].Ok? && entries[j].value.enclosedName.Some?
          && p in Ancestry(OutPath(target, entries[j].value));
        AncestryUnderTarget(target, entries[j].value.enclosedName.value, p);
      }
    }
  }

  /** The extension directory on disk, which `extract_zip` creates and fills. */
  class ExtensionDisk {
    var dirs: set<string>
    var files: map<string, seq<bv8>>

    constructor(dirs0: set<string>, files0: map<string, seq<bv8>>)
      ensures dirs == dirs0 && files == files0
    {
      dirs := dirs0;
      files := files0;
    }

    function Contents(): Tree
      reads this
    {
      Tree(dirs, files)
    }

    /** `extract_zip`: the loop over the entries, keeping the saturating running total. */
    method ExtractZip(archive: Result<seq<Result<ZipEntry, string>>, string>, target: string, fs: FsAnswers)
      returns (r: Result<(), ActionbookError>)
      requires archive.Ok? ==> SizesFit(archive.value)
      modifies this
      ensures (r, Contents()) == Extract(archive, target, fs, old(Contents()))
    {
      if archive.Err? {
        return Err(ExtensionError("The downloaded extension file appears corrupted: " + archive.error));
      }
      var entries := archive.value;
      if fs.mkdirError(target).Some? {
        return Err(MkdirFailed(target, fs.mkdirError(target).value));
      }
      ghost var start := Contents().(dirs := dirs + Ancestry(target));
      dirs := dirs + Ancestry(target);
      var total: nat := 0;
      var i := 0;
      while i < |entries|
        invariant 0 <= i <= |entries| && total <= U64_MAX
        invariant ExtractFrom(entries, target, fs, i, total, Contents()) == ExtractFrom(entries, target, fs, 0, 0, start)
        decreases |entries| - i
      {
        var s := EntryStep(i, entries[i], target, fs, total, Contents());
        dirs := s.tree.dirs;
        files := s.tree.files;
        if s.Stop? {
          return Err(s.error);
        }
        total := s.total;
        i := i + 1;
      }
      return Ok(());
    }
  }

  // ---------------------------------------------------------------------
  // Versions around an install
  // ---------------------------------------------------------------------

  /** The part of a semantic version the comparison orders by. */
  datatype Version = Version(major: nat, minor: nat, patch: nat)

  predicate AtLeast(a: Version, b: Version)
  {
    a.major > b.major
    || (a.major == b.major && (a.minor > b.minor || (a.minor == b.minor && a.patch >= b.patch)))
  }

  /** The version order is total and reflexive. */
  lemma AtLeastTotal(a: Version, b: Version)
    ensures AtLeast(a, a)
    ensures AtLeast(a, b) || AtLeast(b, a)
    ensures AtLeast(a, b) && AtLeast(b, a) ==> a == b
  {
  }

  /**
   * The check `download_and_install` makes before downloading: when the
   * extension is installed and `force` is off, both versions must parse (by
   * `parse`, standing for `semver::Version::parse`), and an installed
   * version at least the release's stops the install as already up to date.
   */
  function InstallGate(force: bool, installed: bool, installedVersion: Option<string>, latest: string,
                       parse: string -> Result<Version, string>): (r: Result<(), ActionbookError>)
    ensures force || !installed ==> r.Ok?
    ensures r.Err? && r.error.ExtensionAlreadyUpToDate? ==>
      r.error == ExtensionAlreadyUpToDate(installedVersion.UnwrapOr(""), latest)
  {
    if !installed || force then Ok(())
    else
      var current := installedVersion.UnwrapOr("");
      match parse(current)
      case Err(e) => Err(ExtensionError("Installed version '" + current + "' is not valid semver: " + e + ". Use --force to reinstall"))
      case Ok(cv) =>
        match parse(latest)
        case Err(e) => Err(ExtensionError("Release version '" + latest + "' is not valid semver: " + e))
        case Ok(lv) => if AtLeast(cv, lv) then Err(ExtensionAlreadyUpToDate(current, latest)) else Ok(())
  }

  /** Without `force`, an installed extension is reinstalled exactly when the release is newer. */
  lemma InstallGateVersions(installedVersion: string, latest: string, parse: string -> Result<Version, string>)
    requires parse(installedVersion).Ok? && parse(latest).Ok?
    ensures var r := InstallGate(false, true, Some(installedVersion), latest, parse);
      && (r.Ok? <==> !AtLeast(parse(installedVersion).value, parse(latest).value))
      && (r.Err? ==> r.error == ExtensionAlreadyUpToDate(installedVersion, latest))
  {
  }

  /** The same version installed again without `force` is refused as up to date. */
  lemma SameVersionUpToDate(v: string, parse: string -> Result<Version, string>)
    requires parse(v).Ok?
    ensures InstallGate(false, true, Some(v), v, parse) == Err(ExtensionAlreadyUpToDate(v, v))
  {
    AtLeastTotal(parse(v).value, parse(v).value);
  }

  /** `installed_version`: the `version` string of the manifest, if it reads and parses. */
  function InstalledVersion(manifest: Option<string>, parse: string -> Option<Json>): (r: Option<string>)
    ensures r.Some? ==> (manifest.Some? && parse(manifest.value).Some?
      && Get(parse(manifest.value).value, "version") == Some(JStr(r.value)))
    ensures manifest.Some? && parse(manifest.value).Some? && AsStr(Get(parse(manifest.value).value, "version")).Some? ==>
      r.Some?
  {
    if manifest.None? then None
    else match parse(manifest.value)
      case None => None
      case Some(j) => AsStr(Get(j, "version"))
  }

  /**
   * The check on the unpacked manifest: it must read, parse (with the
   * parser's message on failure), carry a string `version`, and that
   * version must be the release's.
   */
  function CheckManifest(manifest: Option<string>, parse: string -> Result<Json, string>, version: string)
    : (r: Result<(), ActionbookError>)
    ensures r.Ok? <==> (manifest.Some? && parse(manifest.value).Ok?
      && Get(parse(manifest.value).value, "version") == Some(JStr(version)))
    ensures (manifest.Some? && parse(manifest.value).Ok? && AsStr(Get(parse(manifest.value).value, "version")).Some?
      && r.Err?) ==>
      r == Err(ExtensionError("Version mismatch after extraction: expected v" + version + ", got v"
        + AsStr(Get(parse(manifest.value).value, "version")).value + ". Release may be corrupted"))
  {
    match manifest
    case None => Err(ExtensionError("Extraction succeeded but manifest.json is missing or unreadable"))
    case Some(content) =>
      match parse(content)
      case Err(e) => Err(ExtensionError("Extracted manifest.json is invalid JSON: " + e))
      case Ok(j) =>
        match AsStr(Get(j, "version"))
        case None => Err(ExtensionError("Extracted manifest.json is missing 'version' field"))
        case Some(v) =>
          if v != version then
            Err(ExtensionError("Version mismatch after extraction: expected v" + version + ", got v" + v + ". Release may be corrupted"))
          else Ok(())
  }
}
