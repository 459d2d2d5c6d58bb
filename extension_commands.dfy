/**
 * `actionbook extension stop`: choosing which bridge process to stop from the
 * standard and the legacy PID files, each holding a (pid, port) pair.
 */
module ExtensionCommands {
  import opened Wrappers

  datatype PidResolution =
    | Selected(pid: nat)
    | Ambiguous
    | BothMatchedButDead
    | NoMatch

  /** The pid of an entry recorded for the requested port. */
  function MatchedPid(entry: Option<(nat, nat)>, port: nat): (r: Option<nat>)
    ensures r.Some? <==> entry.Some? && entry.value.1 == port
    ensures r.Some? ==> r.value == entry.value.0
  {
    match entry
    case Some((pid, p)) => if p == port then Some(pid) else None
    case None => None
  }

  /**
   * `resolve_pid_for_port`. Only entries for the requested port count; two
   * matching entries with different pids are told apart by liveness.
   */
  function ResolvePidForPort(std: Option<(nat, nat)>, legacy: Option<(nat, nat)>, port: nat, alive: nat -> bool): (r: PidResolution)
    ensures r == NoMatch <==> MatchedPid(std, port).None? && MatchedPid(legacy, port).None?
    ensures r.Selected? ==> Some(r.pid) == MatchedPid(std, port) || Some(r.pid) == MatchedPid(legacy, port)
    ensures (r == Ambiguous || r == BothMatchedButDead) ==>
      MatchedPid(std, port).Some? && MatchedPid(legacy, port).Some? && MatchedPid(std, port) != MatchedPid(legacy, port)
  {
    var s := MatchedPid(std, port);
    var l := MatchedPid(legacy, port);
    if s.Some? && l.Some? then
      if s.value == l.value then Selected(s.value)
      else
        var aliveStd := alive(s.value);
        var aliveLegacy := alive(l.value);
        if aliveStd && !aliveLegacy then Selected(s.value)
        else if !aliveStd && aliveLegacy then Selected(l.value)
        else if aliveStd && aliveLegacy then Ambiguous
        else BothMatchedButDead
    else if s.Some? then Selected(s.value)
    else if l.Some? then Selected(l.value)
    else NoMatch
  }

  /** The pids whose liveness `resolve_pid_for_port` asks about. */
  function Probes(std: Option<(nat, nat)>, legacy: Option<(nat, nat)>, port: nat): (r: seq<nat>)
    ensures |r| == 0 || |r| == 2
  {
    var s := MatchedPid(std, port);
    var l := MatchedPid(legacy, port);
    if s.Some? && l.Some? && s.value != l.value then [s.value, l.value] else []
  }

  /** Liveness is asked about only when both entries match with different pids. */
  lemma ProbesOnlyWhenPidsDiffer(std: Option<(nat, nat)>, legacy: Option<(nat, nat)>, port: nat)
    ensures Probes(std, legacy, port) != [] <==>
      (MatchedPid(std, port).Some? && MatchedPid(legacy, port).Some? && MatchedPid(std, port) != MatchedPid(legacy, port))
  {
  }

  /** The result depends on liveness only through the probed pids. */
  lemma ResolveUsesOnlyProbes(std: Option<(nat, nat)>, legacy: Option<(nat, nat)>, port: nat, alive1: nat -> bool, alive2: nat -> bool)
    requires forall p :: p in Probes(std, legacy, port) ==> alive1(p) == alive2(p)
    ensures ResolvePidForPort(std, legacy, port, alive1) == ResolvePidForPort(std, legacy, port, alive2)
  {
    var s := MatchedPid(std, port);
    var l := MatchedPid(legacy, port);
    if s.Some? && l.Some? && s.value != l.value {
      assert s.value in Probes(std, legacy, port);
      assert l.value in Probes(std, legacy, port);
    }
  }

  /** A single match, or two matches of the same pid, is selected whatever the liveness. */
  lemma SingleMatchSelected(std: Option<(nat, nat)>, legacy: Option<(nat, nat)>, port: nat, alive: nat -> bool)
    requires MatchedPid(std, port).Some? != MatchedPid(legacy, port).Some?
      || (MatchedPid(std, port).Some? && MatchedPid(std, port) == MatchedPid(legacy, port))
    ensures var r := ResolvePidForPort(std, legacy, port, alive);
      r.Selected? && (Some(r.pid) == MatchedPid(std, port) || Some(r.pid) == MatchedPid(legacy, port))
  {
  }

  /** Two different matching pids: the live one if exactly one is alive, else Ambiguous or BothMatchedButDead. */
  lemma TwoMatchesByLiveness(std: Option<(nat, nat)>, legacy: Option<(nat, nat)>, port: nat, alive: nat -> bool)
    requires MatchedPid(std, port).Some? && MatchedPid(legacy, port).Some?
    requires MatchedPid(std, port) != MatchedPid(legacy, port)
    ensures var a := MatchedPid(std, port).value;
      var b := MatchedPid(legacy, port).value;
      var r := ResolvePidForPort(std, legacy, port, alive);
      (r == Selected(a) <==> alive(a) && !alive(b))
      && (r == Selected(b) <==> !alive(a) && alive(b))
      && (r == Ambiguous <==> alive(a) && alive(b))
      && (r == BothMatchedButDead <==> !alive(a) && !alive(b))
  {
  }

  /** Entries recorded for another port are as good as absent. */
  lemma OtherPortsIgnored(std: Option<(nat, nat)>, legacy: Option<(nat, nat)>, port: nat, alive: nat -> bool)
    ensures ResolvePidForPort(std, legacy, port, alive)
      == ResolvePidForPort(if MatchedPid(std, port).Some? then std else None,
                           if MatchedPid(legacy, port).Some? then legacy else None, port, alive)
  {
  }
}
