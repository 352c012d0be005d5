/** The whole exec hook: the Critical gate first, then the deny rules for a watched process.
    The profile requests and the process events touch different maps, so the state at an exec
    between two requests is given by both histories, however they were interleaved. An exec in
    the middle of a request is covered call by call in `SwitchSteps`. */
module CheckExecve {
  import opened ByteStrings
  import Lineage
  import Kernel
  import DenyKeys
  import ProfileSwitch

  /** `check_execve`: refused with -EPERM, for any stale scratch contents. */
  method CheckExecve(cfg: Kernel.Config, tree: Kernel.Tree, maps: Kernel.Maps, rules: ProfileSwitch.Daemon,
                     pid: Lineage.Pid, f: DenyKeys.FileName, data: array<Byte>, name: array<Byte>)
    returns (refused: bool)
    requires data.Length == DenyKeys.PATH_LEN && name.Length == DenyKeys.NAME_LEN && data != name && DenyKeys.Legal(f)
    modifies data, name
    ensures refused == Refuses(cfg, Kernel.State(tree, maps.threat, maps.watch), rules.Now(), pid, f)
  {
    var flagged := maps.Match(cfg, tree, pid);
    if flagged != 0 {
      return true;
    }
    refused := rules.DenyCheck(pid in maps.watch, f, data, name);
  }

  ghost predicate Refuses(cfg: Kernel.Config, k: Kernel.State, d: ProfileSwitch.State,
                          pid: Lineage.Pid, f: DenyKeys.FileName) {
    Kernel.CriticalMatch(cfg, k, pid) != 0 || ProfileSwitch.RefusedBy(d, pid in k.watch, f)
  }

  /** How a Critical mark reaches a process: by a chain of forks under propagate-on-fork,
      otherwise by standing on an ancestor within the configured hops. */
  ghost predicate MarkReaches(cfg: Kernel.Config, tr: seq<Kernel.Event>, pid: Lineage.Pid) {
    if cfg.mode.Propagate? then Lineage.Inherits(Kernel.CritSignals(cfg, tr), pid, |tr|)
    else Kernel.MarkedAncestor(cfg, tr, pid)
  }

  lemma GateIff(cfg: Kernel.Config, tr: seq<Kernel.Event>, pid: Lineage.Pid)
    requires Kernel.Trace(tr) && pid in Kernel.TreeAfter(tr, |tr|)
    ensures Kernel.CriticalMatch(cfg, Kernel.Run(cfg, tr, |tr|), pid) != 0 <==> MarkReaches(cfg, tr, pid)
  {
    hide Kernel.Run, Kernel.CriticalMatch, Kernel.MarkedAncestor, Kernel.Trace, Lineage.Inherits;
    if cfg.mode.Propagate? {
      Kernel.RefusedIffMarkedLineage(cfg, tr, pid);
    } else {
      Kernel.RefusedIffMarkedAncestor(cfg, tr, pid);
    }
  }

  /** In every mode, after any process history and any profile requests: an exec is refused
      exactly when a Critical mark reaches the process, or when a chain of forks leads to it
      from a watched process while strict is active and the kernel's view of the path or
      basename is a configured, encodable rule. */
  lemma ExecRefusedIff(
    cfg: Kernel.Config, tr: seq<Kernel.Event>, c: ProfileSwitch.Config, start: ProfileSwitch.Profile,
    qs: seq<ProfileSwitch.Request>, pid: Lineage.Pid, f: DenyKeys.FileName)
    requires Kernel.Trace(tr) && pid in Kernel.TreeAfter(tr, |tr|) && DenyKeys.Legal(f)
    ensures Refuses(cfg, Kernel.Run(cfg, tr, |tr|), ProfileSwitch.After(c, start, qs), pid, f) <==>
              || MarkReaches(cfg, tr, pid)
              || (&& Lineage.Inherits(Kernel.WatchSignals(tr), pid, |tr|)
                  && ProfileSwitch.Active(c, start, qs).Strict? && f.Path?
                  && (|| DenyKeys.PathRule(c.bins, DenyKeys.SeenPath(f.bytes))
                      || DenyKeys.NameRule(c.names, DenyKeys.SeenName(f.bytes))))
  {
    GateIff(cfg, tr, pid);
    Kernel.WatchedIffLineage(cfg, tr, pid);
    var watched := pid in Kernel.Run(cfg, tr, |tr|).watch;
    ProfileSwitch.ExecRefusedIffRule(c, start, qs, watched, f);
    hide Kernel.Run, Kernel.Trace, Kernel.CriticalMatch, Lineage.Inherits, MarkReaches;
    hide ProfileSwitch.After, ProfileSwitch.Active, ProfileSwitch.RefusedBy;
    hide DenyKeys.PathRule, DenyKeys.NameRule;
  }
}
