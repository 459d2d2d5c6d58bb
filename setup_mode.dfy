/**
 * The integration step of `actionbook setup`: which tools to set up, and
 * writing each tool's file without clobbering one the user changed.
 */
module SetupMode {
  import opened Wrappers
  import Text

  datatype SetupTarget = Claude | Cursor | Codex | Standalone | All

  /** `target_name`. */
  function TargetName(t: SetupTarget): (r: string)
  {
    match t
    case Claude => "Claude Code"
    case Cursor => "Cursor"
    case Codex => "Codex"
    case Standalone => "Standalone CLI"
    case All => "All"
  }

  lemma TargetNameInjective(a: SetupTarget, b: SetupTarget)
    ensures TargetName(a) == TargetName(b) <==> a == b
  {
  }

  // ---------------------------------------------------------------------------
  // Expanding targets
  // ---------------------------------------------------------------------------

  /** What `All` stands for, in order. */
  const AllTargets: seq<SetupTarget> := [Claude, Cursor, Codex]

  function Unfold1(t: SetupTarget): (r: seq<SetupTarget>)
  {
    if t == All then AllTargets else [t]
  }

  /** The targets with every `All` spelled out. */
  function Unfold(targets: seq<SetupTarget>): (r: seq<SetupTarget>)
    ensures All !in r
    ensures forall t :: t in r <==> (t != All && (t in targets || (All in targets && t in AllTargets)))
  {
    if targets == [] then []
    else Unfold(targets[..|targets| - 1]) + Unfold1(targets[|targets| - 1])
  }

  /** The first occurrence of each element, in order. */
  function Dedup(s: seq<SetupTarget>): (r: seq<SetupTarget>)
    ensures forall t :: t in r <==> t in s
  {
    if s == [] then []
    else
      var d := Dedup(s[..|s| - 1]);
      if s[|s| - 1] in d then d else d + [s[|s| - 1]]
  }

  lemma DedupSnoc(s: seq<SetupTarget>, x: SetupTarget)
    ensures Dedup(s + [x]) == if x in Dedup(s) then Dedup(s) else Dedup(s) + [x]
  {
    assert (s + [x])[..|s|] == s;
  }

  lemma UnfoldSnoc(targets: seq<SetupTarget>, t: SetupTarget)
    ensures Unfold(targets + [t]) == Unfold(targets) + Unfold1(t)
  {
    assert (targets + [t])[..|targets|] == targets;
  }

  lemma UnfoldPrefix(targets: seq<SetupTarget>, i: nat)
    requires i < |targets|
    ensures Unfold(targets[..i + 1]) == Unfold(targets[..i]) + Unfold1(targets[i])
  {
    assert targets[..i + 1] == targets[..i] + [targets[i]];
    UnfoldSnoc(targets[..i], targets[i]);
  }

  /** Dedup keeps no element twice. */
  lemma {:induction false} DedupDistinct(s: seq<SetupTarget>)
    ensures forall i, j :: 0 <= i < j < |Dedup(s)| ==> Dedup(s)[i] != Dedup(s)[j]
  {
    if s != [] {
      DedupDistinct(s[..|s| - 1]);
    }
  }

  /** The position of the first occurrence. */
  function FirstIndex(s: seq<SetupTarget>, x: SetupTarget): (r: nat)
    requires x in s
    ensures r < |s| && s[r] == x && forall k :: 0 <= k < r ==> s[k] != x
  {
    if s[0] == x then 0 else 1 + FirstIndex(s[1..], x)
  }

  lemma FirstIndexPrefix(s: seq<SetupTarget>, y: SetupTarget, x: SetupTarget)
    requires x in s
    ensures FirstIndex(s + [y], x) == FirstIndex(s, x)
  {
    var t := s + [y];
    var k := FirstIndex(s, x);
    assert t[k] == x;
    assert forall j :: 0 <= j < k ==> t[j] == s[j];
    FirstIndexUnique(t, x, k);
  }

  lemma FirstIndexUnique(s: seq<SetupTarget>, x: SetupTarget, k: nat)
    requires k < |s| && s[k] == x && forall j :: 0 <= j < k ==> s[j] != x
    ensures FirstIndex(s, x) == k
  {
  }

  /** Dedup lists elements in the order of their first occurrence. */
  lemma {:induction false} DedupOrder(s: seq<SetupTarget>)
    ensures forall i, j :: 0 <= i < j < |Dedup(s)| ==> FirstIndex(s, Dedup(s)[i]) < FirstIndex(s, Dedup(s)[j])
  {
    if s != [] {
      var p := s[..|s| - 1];
      var x := s[|s| - 1];
      assert s == p + [x];
      DedupOrder(p);
      var d := Dedup(p);
      forall e | e in d
        ensures FirstIndex(s, e) == FirstIndex(p, e) && FirstIndex(p, e) < |p|
      {
        FirstIndexPrefix(p, x, e);
      }
      if x !in d {
        FirstIndexUnique(s, x, |p|);
      }
    }
  }

  /** The inner loop of `expand_targets` for `all`: push each concrete target not yet present. */
  method PushAllTargets(current: seq<SetupTarget>, ghost done: seq<SetupTarget>) returns (result: seq<SetupTarget>)
    requires current == Dedup(done)
    ensures result == Dedup(done + AllTargets)
  {
    result := current;
    var k := 0;
    assert done + AllTargets[..0] == done;
    while k < |AllTargets|
      invariant 0 <= k <= |AllTargets|
      invariant result == Dedup(done + AllTargets[..k])
    {
      var e := AllTargets[k];
      PushStep(done, AllTargets, k);
      result := PushNew(result, e);
      k := k + 1;
    }
    assert AllTargets[..k] == AllTargets;
  }

  /**
   * `expand_targets`: `All` becomes Claude, Cursor, Codex; each target is
   * pushed only if not already there.
   */
  method ExpandTargets(targets: seq<SetupTarget>) returns (result: seq<SetupTarget>)
    ensures result == Dedup(Unfold(targets))
  {
    result := [];
    var i := 0;
    while i < |targets|
      invariant 0 <= i <= |targets|
      invariant result == Dedup(Unfold(targets[..i]))
    {
      var t := targets[i];
      ghost var done := Unfold(targets[..i]);
      UnfoldPrefix(targets, i);
      if t == All {
        result := PushAllTargets(result, done);
      } else {
        DedupSnoc(done, t);
        result := PushNew(result, t);
      }
      i := i + 1;
    }
    assert targets[..i] == targets;
  }

  /** `if !result.contains(&t) { result.push(t) }`. */
  method PushNew(result: seq<SetupTarget>, t: SetupTarget) returns (r: seq<SetupTarget>)
    ensures r == if t in result then result else result + [t]
  {
    r := result;
    if t !in result {
      r := result + [t];
    }
  }

  lemma PushStep(done: seq<SetupTarget>, more: seq<SetupTarget>, k: nat)
    requires k < |more|
    ensures Dedup(done + more[..k + 1])
      == if more[k] in Dedup(done + more[..k]) then Dedup(done + more[..k]) else Dedup(done + more[..k]) + [more[k]]
  {
    assert done + more[..k + 1] == (done + more[..k]) + [more[k]];
    DedupSnoc(done + more[..k], more[k]);
  }

  /**
   * The expansion never holds `All`, holds no target twice, keeps the order
   * of first occurrence, and holds exactly the named targets and, with
   * `All`, Claude, Cursor and Codex.
   */
  lemma ExpandedShape(targets: seq<SetupTarget>)
    ensures var r := Dedup(Unfold(targets));
      All !in r
      && (forall i, j :: 0 <= i < j < |r| ==> r[i] != r[j])
      && (forall i, j :: 0 <= i < j < |r| ==> FirstIndex(Unfold(targets), r[i]) < FirstIndex(Unfold(targets), r[j]))
      && (forall t :: t in r <==> (t != All && (t in targets || (All in targets && t in AllTargets))))
  {
    DedupDistinct(Unfold(targets));
    DedupOrder(Unfold(targets));
  }

  /** `[All]` and `[All, Codex]` both expand to Claude, Cursor, Codex. */
  lemma ExpandAll()
    ensures Dedup(Unfold([All])) == AllTargets
    ensures Dedup(Unfold([All, Codex])) == AllTargets
  {
    UnfoldAllOnly();
    DedupAllTargets();
    assert [All, Codex][..1] == [All];
    assert Unfold([All, Codex]) == AllTargets + [Codex];
    DedupSnoc(AllTargets, Codex);
  }

  lemma UnfoldAllOnly()
    ensures Unfold([All]) == AllTargets
  {
    assert [All][..0] == [];
  }

  lemma DedupAllTargets()
    ensures Dedup(AllTargets) == AllTargets
  {
    assert Dedup(AllTargets[..1]) == [Claude];
    assert AllTargets[..2][..1] == AllTargets[..1];
    assert Dedup(AllTargets[..2]) == [Claude, Cursor];
    assert AllTargets[..3][..2] == AllTargets[..2];
    assert AllTargets[..3] == AllTargets;
  }

  /**
   * `select_modes` without prompting: the expanded flag when one is given;
   * in non-interactive mode the detected tools in Claude, Cursor, Codex
   * order, or Standalone when none is detected. None: the interactive
   * selection takes over.
   */
  method SelectModes(flag: Option<seq<SetupTarget>>, nonInteractive: bool, claude: bool, cursor: bool, codex: bool)
    returns (r: Option<seq<SetupTarget>>)
    ensures flag.Some? ==> r == Some(Dedup(Unfold(flag.value)))
    ensures flag.None? && !nonInteractive ==> r.None?
    ensures flag.None? && nonInteractive ==> r.Some? && r.value == DetectedTargets(claude, cursor, codex)
  {
    if flag.Some? {
      var targets := ExpandTargets(flag.value);
      return Some(targets);
    }
    if nonInteractive {
      var targets: seq<SetupTarget> := [];
      if claude {
        targets := targets + [Claude];
      }
      if cursor {
        targets := targets + [Cursor];
      }
      if codex {
        targets := targets + [Codex];
      }
      if targets == [] {
        targets := [Standalone];
      }
      return Some(targets);
    }
    r := None;
  }

  /** The detected tools as a list: never empty, no duplicates, Standalone only when nothing is detected. */
  function DetectedTargets(claude: bool, cursor: bool, codex: bool): (r: seq<SetupTarget>)
    ensures r != []
    ensures Standalone in r <==> !claude && !cursor && !codex
    ensures (Claude in r <==> claude) && (Cursor in r <==> cursor) && (Codex in r <==> codex)
    ensures All !in r
  {
    var t := (if claude then [Claude] else []) + (if cursor then [Cursor] else []) + (if codex then [Codex] else []);
    if t == [] then [Standalone] else t
  }

  // ---------------------------------------------------------------------------
  // Writing the files
  // ---------------------------------------------------------------------------

  datatype Template = ClaudeSkill | CodexSkill | CursorRules

  /** `target_file_info`: the file a target writes and its template; none for Standalone and All. */
  function TargetFileInfo(t: SetupTarget): (r: Option<(string, Template)>)
    ensures r.None? <==> t == Standalone || t == All
  {
    match t
    case Claude => Some((".claude/skills/actionbook/SKILL.md", ClaudeSkill))
    case Codex => Some((".agents/skills/actionbook/SKILL.md", CodexSkill))
    case Cursor => Some((".cursor/rules/actionbook.md", CursorRules))
    case Standalone => None
    case All => None
  }

  datatype FileStatus = Created | Updated | Skipped | AlreadyUpToDate

  function StatusText(s: FileStatus): string
  {
    match s
    case Created => "created"
    case Updated => "updated (backup saved)"
    case Skipped => "skipped"
    case AlreadyUpToDate => "already up to date"
  }

  datatype TargetResult = TargetResult(target: SetupTarget, path: string, status: FileStatus)

  function BackupName(path: string, timestamp: nat): string
  {
    path + ".bak." + Text.NatToString(timestamp)
  }

  /** The working directory's files, path to content. */
  class FileSystem {
    var files: map<string, string>

    constructor (files: map<string, string>)
      ensures this.files == files
    {
      this.files := files;
    }

    /** `backup_file`: copy to `<path>.bak.<timestamp>`; nothing for a missing file. */
    method BackupFile(path: string, timestamp: nat)
      modifies this
      ensures path !in old(files) ==> files == old(files)
      ensures path in old(files) ==> files == old(files)[BackupName(path, timestamp) := old(files)[path]]
    {
      if path !in files {
        return;
      }
      files := files[BackupName(path, timestamp) := files[path]];
    }

    /** `write_with_dirs`. */
    method Write(path: string, content: string)
      modifies this
      ensures files == old(files)[path := content]
    {
      files := files[path := content];
    }

    /**
     * `write_file_idempotent`. overwrite is the answer of the interactive
     * keep-or-overwrite prompt.
     */
    method WriteFileIdempotent(target: SetupTarget, path: string, content: string, force: bool, nonInteractive: bool,
                               overwrite: bool, timestamp: nat) returns (result: TargetResult)
      modifies this
      ensures result.target == target && result.path == path
      ensures path !in old(files) ==> result.status == Created && files == old(files)[path := content]
      ensures path in old(files) && old(files)[path] == content ==> result.status == AlreadyUpToDate && files == old(files)
      ensures path in old(files) && old(files)[path] != content ==>
        (if force || (!nonInteractive && overwrite) then
          result.status == Updated
          && files == old(files)[BackupName(path, timestamp) := old(files)[path]][path := content]
        else result.status == Skipped && files == old(files))
      ensures result.status != Skipped ==> path in files && files[path] == content
    {
      if path in files {
        var existing := files[path];
        if existing == content {
          return TargetResult(target, path, AlreadyUpToDate);
        }
        if force {
          BackupFile(path, timestamp);
          Write(path, content);
          return TargetResult(target, path, Updated);
        }
        if nonInteractive {
          return TargetResult(target, path, Skipped);
        }
        if !overwrite {
          return TargetResult(target, path, Skipped);
        }
        BackupFile(path, timestamp);
        Write(path, content);
        return TargetResult(target, path, Updated);
      }
      Write(path, content);
      result := TargetResult(target, path, Created);
    }
  }

  /** The targets that have a file, in order. */
  function FileTargets(targets: seq<SetupTarget>): (r: seq<SetupTarget>)
    ensures forall t :: t in r <==> t in targets && TargetFileInfo(t).Some?
    ensures |r| <= |targets|
  {
    if targets == [] then []
    else
      var last := targets[|targets| - 1];
      FileTargets(targets[..|targets| - 1]) + (if TargetFileInfo(last).Some? then [last] else [])
  }

  lemma FileTargetsPrefix(targets: seq<SetupTarget>, i: nat)
    requires i < |targets|
    ensures FileTargets(targets[..i + 1])
      == FileTargets(targets[..i]) + (if TargetFileInfo(targets[i]).Some? then [targets[i]] else [])
  {
    assert targets[..i + 1][..i] == targets[..i];
  }

  /**
   * `generate_integration_files`: one result per target that has a file,
   * in input order, each for that target's path. template(t) is a
   * template's text and overwrite(i) the prompt answer for the i-th file.
   */
  method GenerateIntegrationFiles(fs: FileSystem, targets: seq<SetupTarget>, force: bool, nonInteractive: bool,
                                  template: Template -> string, overwrite: nat -> bool, timestamp: nat)
    returns (results: seq<TargetResult>)
    modifies fs
    ensures |results| == |FileTargets(targets)|
    ensures forall i :: 0 <= i < |results| ==>
      results[i].target == FileTargets(targets)[i] && Some(results[i].path) == MapPath(TargetFileInfo(results[i].target))
  {
    results := [];
    var i := 0;
    while i < |targets|
      invariant 0 <= i <= |targets|
      invariant ResultsFor(results, FileTargets(targets[..i]))
    {
      ghost var done := FileTargets(targets[..i]);
      FileTargetsPrefix(targets, i);
      var info := TargetFileInfo(targets[i]);
      if info.Some? {
        var (path, t) := info.value;
        var r := fs.WriteFileIdempotent(targets[i], path, template(t), force, nonInteractive, overwrite(|results|), timestamp);
        ResultsForSnoc(results, done, r);
        assert FileTargets(targets[..i + 1]) == done + [r.target];
        results := results + [r];
      } else {
        assert FileTargets(targets[..i + 1]) == done + [] == done;
      }
      i := i + 1;
    }
    assert targets[..i] == targets;
  }

  /** One result per file target, in order, each for that target's path. */
  predicate ResultsFor(results: seq<TargetResult>, fileTargets: seq<SetupTarget>)
  {
    |results| == |fileTargets|
    && forall k :: 0 <= k < |results| ==>
      results[k].target == fileTargets[k] && Some(results[k].path) == MapPath(TargetFileInfo(results[k].target))
  }

  lemma ResultsForSnoc(results: seq<TargetResult>, fileTargets: seq<SetupTarget>, r: TargetResult)
    requires ResultsFor(results, fileTargets)
    requires Some(r.path) == MapPath(TargetFileInfo(r.target))
    ensures ResultsFor(results + [r], fileTargets + [r.target])
  {
  }

  function MapPath(info: Option<(string, Template)>): Option<string>
  {
    match info
    case None => None
    case Some((p, _)) => Some(p)
  }
}
