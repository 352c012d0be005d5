/** The kernel enforcement machine: the fork, exit and exec hooks over `threat_map` and
    `watch_pids`, run against a process tree that forks, exits, reparents and reuses
    PIDs. Processes are single-threaded and both maps stay below their capacity. */
module Kernel {
  import opened Lineage

  type Level = n: nat | n <= 2
  const LOW: Level := 0
  const CRITICAL: Level := 2

  const MAX_ANCESTRY := 16
  const INIT: Pid := 1

  datatype Mode = OneLevel | Ancestry | Propagate
  datatype Config = Config(mode: Mode, maxDepth: nat)

  /** Every live PID with the tgid of its real_parent. */
  type Tree = map<Pid, Pid>

  datatype State = State(tree: Tree, threat: map<Pid, Level>, watch: set<Pid>)

  /** Userspace writes (`set_threat` in block mode, `set_watch`) and the traced kernel
      events. `Exit` names the process that adopts the orphans. */
  datatype Event =
    | Mark(pid: Pid, level: Level)
    | Watch(pid: Pid)
    | Fork(parent: Pid, child: Pid)
    | Exit(pid: Pid, reaper: Pid)
    | Exec(pid: Pid)

  predicate IsCritical(threat: map<Pid, Level>, p: Pid) {
    p in threat && threat[p] == CRITICAL
  }

  // ----- process tree -----------------------------------------------------------

  /** The k-th ancestor, or 0 once the chain has run out. */
  function Up(t: Tree, p: Pid, k: nat): Pid
    decreases k
  {
    if k == 0 then p else if p in t then Up(t, t[p], k - 1) else 0
  }

  ghost predicate ProperAncestor(t: Tree, a: Pid, p: Pid) {
    exists k: nat :: 0 < k && Up(t, p, k) == a
  }

  function Grow(t: Tree, e: Event): Tree {
    match e
    case Fork(a, c) => t[c := a]
    case Exit(p, r) => Adopt(t, p, r)
    case _ => t
  }

  /** `p` leaves and `r` becomes the parent of its children. */
  function Adopt(t: Tree, p: Pid, r: Pid): (t': Tree)
    ensures t'.Keys == t.Keys - {p}
    ensures forall q :: q in t' ==> t'[q] == if t[q] == p then r else t[q]
  {
    map q | q in t && q != p :: if t[q] == p then r else t[q]
  }

  function TreeAfter(tr: seq<Event>, n: nat): Tree
    requires n <= |tr|
  {
    if n == 0 then map[INIT := 0] else Grow(TreeAfter(tr, n - 1), tr[n - 1])
  }

  /** Userspace writes only to live PIDs; a fork takes an unused PID; init never exits and
      orphans go to init or to a living ancestor (a subreaper) of the process that exits. */
  ghost predicate Possible(t: Tree, e: Event) {
    Sane(t, e) && (e.Exit? ==> e.reaper == INIT || ProperAncestor(t, e.reaper, e.pid))
  }

  predicate Sane(t: Tree, e: Event) {
    match e
    case Fork(a, c) => a in t && c !in t && INIT < c
    case Exit(p, r) => p in t && p != INIT && r in t && r != p
    case _ => e.pid in t
  }

  ghost predicate Trace(tr: seq<Event>) {
    forall i {:trigger Possible(TreeAfter(tr, i), tr[i])} :: 0 <= i < |tr| ==> Possible(TreeAfter(tr, i), tr[i])
  }

  // ----- hooks ------------------------------------------------------------------

  /** `set_threat`: Low deletes the key, any other level overwrites it. */
  function SetThreat(threat: map<Pid, Level>, p: Pid, level: Level): map<Pid, Level> {
    if level == LOW then threat - {p} else threat[p := level]
  }

  function ForkThreat(cfg: Config, threat: map<Pid, Level>, parent: Pid, child: Pid): map<Pid, Level> {
    if cfg.mode.Propagate? && IsCritical(threat, parent) then threat[child := CRITICAL] else threat
  }

  function ForkWatch(watch: set<Pid>, parent: Pid, child: Pid): set<Pid> {
    if parent in watch then watch + {child} else watch
  }

  function Step(cfg: Config, s: State, e: Event): State {
    var t := Grow(s.tree, e);
    match e
    case Mark(p, l) => State(t, SetThreat(s.threat, p, l), s.watch)
    case Watch(p) => State(t, s.threat, s.watch + {p})
    case Fork(a, c) => State(t, ForkThreat(cfg, s.threat, a, c), ForkWatch(s.watch, a, c))
    case Exit(p, _) => State(t, s.threat - {p}, s.watch - {p})
    case Exec(_) => s
  }

  function Run(cfg: Config, tr: seq<Event>, n: nat): (s: State)
    requires n <= |tr|
    ensures s.tree == TreeAfter(tr, n)
  {
    if n == 0 then State(map[INIT := 0], map[], {}) else Step(cfg, Run(cfg, tr, n - 1), tr[n - 1])
  }

  /** The first Critical process met on at most `n` hops up, stopping before init. */
  function Walk(t: Tree, threat: map<Pid, Level>, p: Pid, n: nat): Pid
    decreases n
  {
    if n == 0 || p !in t || t[p] <= INIT then 0
    else if IsCritical(threat, t[p]) then t[p]
    else Walk(t, threat, t[p], n - 1)
  }

  function Depth(cfg: Config): nat {
    var d := if cfg.mode.Ancestry? then cfg.maxDepth else 1;
    if d < MAX_ANCESTRY then d else MAX_ANCESTRY
  }

  /** The PID whose mark refuses this exec, or 0. */
  function CriticalMatch(cfg: Config, s: State, p: Pid): Pid {
    if cfg.mode.Propagate? then (if IsCritical(s.threat, p) then p else 0)
    else Walk(s.tree, s.threat, p, Depth(cfg))
  }

  /** The two hash maps and the hooks that change them in place. */
  class Maps {
    var threat: map<Pid, Level>
    var watch: set<Pid>

    constructor ()
      ensures threat == map[] && watch == {}
    {
      threat, watch := map[], {};
    }

    method TraceFork(cfg: Config, parent: Pid, child: Pid)
      modifies this
      ensures threat == ForkThreat(cfg, old(threat), parent, child)
      ensures watch == ForkWatch(old(watch), parent, child)
    {
      if parent in watch {
        watch := watch + {child};
      }
      if cfg.mode == Propagate {
        if parent in threat && threat[parent] == CRITICAL {
          threat := threat[child := threat[parent]];
        }
      }
    }

    method TraceExit(tgid: Pid, tid: Pid)
      modifies this
      ensures watch == old(watch) - {tid}
      ensures threat == if tgid == tid then old(threat) - {tgid} else old(threat)
    {
      watch := watch - {tid};
      if tgid == tid {
        threat := threat - {tgid};
      }
    }

    /** `critical_match`: own PID under propagate, otherwise the bounded pointer walk. */
    method Match(cfg: Config, tree: Tree, self: Pid) returns (flagged: Pid)
      ensures flagged == CriticalMatch(cfg, State(tree, threat, watch), self)
    {
      if cfg.mode == Propagate {
        if self in threat && threat[self] == CRITICAL {
          return self;
        }
        return 0;
      }
      var depth := if cfg.mode == Ancestry then cfg.maxDepth else 1;
      var p: Pid := self;
      var i := 0;
      while i < MAX_ANCESTRY
        invariant 0 <= i <= Depth(cfg)
        invariant Walk(tree, threat, p, Depth(cfg) - i) == Walk(tree, threat, self, Depth(cfg))
      {
        if i >= depth {
          break;
        }
        if p !in tree {
          break;
        }
        var parent := tree[p];
        if parent <= INIT {
          break;
        }
        if parent in threat && threat[parent] == CRITICAL {
          return parent;
        }
        p := parent;
        i := i + 1;
      }
      return 0;
    }
  }

  // ----- the walk ---------------------------------------------------------------

  /** `k` hops up from `p` stay above init all the way. */
  ghost predicate Below(t: Tree, p: Pid, k: nat) {
    forall j :: 0 < j <= k ==> INIT < Up(t, p, j)
  }

  /** The `k`-th ancestor is Critical, is reached before init, and no nearer one is. */
  ghost predicate NearestAt(t: Tree, threat: map<Pid, Level>, p: Pid, k: nat) {
    && 0 < k
    && Below(t, p, k)
    && IsCritical(threat, Up(t, p, k))
    && forall j :: 0 < j < k ==> !IsCritical(threat, Up(t, p, j))
  }

  /** The walk finds the nearest Critical ancestor within its hops, and nothing exactly
      when there is none. */
  lemma {:induction false} WalkFindsNearest(t: Tree, threat: map<Pid, Level>, p: Pid, n: nat)
    ensures forall k: nat :: k <= n && NearestAt(t, threat, p, k) ==> Walk(t, threat, p, n) == Up(t, p, k)
    ensures Walk(t, threat, p, n) != 0 ==> exists k: nat :: k <= n && NearestAt(t, threat, p, k)
    decreases n
  {
    if n > 0 && p in t && t[p] > INIT {
      var q := t[p];
      assert Up(t, p, 1) == q;
      if IsCritical(threat, q) {
        assert NearestAt(t, threat, p, 1);
      } else {
        WalkFindsNearest(t, threat, q, n - 1);
        forall k: nat | k <= n && NearestAt(t, threat, p, k) ensures Walk(t, threat, p, n) == Up(t, p, k) {
          NearestShift(t, threat, p, k);
        }
        if Walk(t, threat, p, n) != 0 {
          var k: nat :| k <= n - 1 && NearestAt(t, threat, q, k);
          NearestShift(t, threat, p, k + 1);
        }
      }
    } else if n > 0 {
      assert !(INIT < Up(t, p, 1));
    }
  }

  lemma NearestShift(t: Tree, threat: map<Pid, Level>, p: Pid, k: nat)
    requires 0 < k && p in t && INIT < t[p] && !IsCritical(threat, t[p])
    ensures NearestAt(t, threat, p, k) <==> NearestAt(t, threat, t[p], k - 1)
    ensures Up(t, p, k) == Up(t, t[p], k - 1)
  {
    var q := t[p];
    assert Up(t, p, 1) == q;
    assert forall j {:trigger Up(t, p, j)} :: 0 < j ==> Up(t, p, j) == Up(t, q, j - 1);
    if NearestAt(t, threat, q, k - 1) {
      forall j | 0 < j <= k ensures INIT < Up(t, p, j) && (j < k ==> !IsCritical(threat, Up(t, p, j))) {
        if j > 1 { assert INIT < Up(t, q, j - 1); }
      }
    }
    if NearestAt(t, threat, p, k) {
      forall j | 0 < j <= k - 1 ensures INIT < Up(t, q, j) && (j < k - 1 ==> !IsCritical(threat, Up(t, q, j))) {
        assert INIT < Up(t, p, j + 1);
      }
    }
  }

  /** A deeper walk keeps every match of a shallower one. */
  lemma {:induction false} WalkMonotone(t: Tree, threat: map<Pid, Level>, p: Pid, n: nat, m: nat)
    requires n <= m && Walk(t, threat, p, n) != 0
    ensures Walk(t, threat, p, m) == Walk(t, threat, p, n)
    decreases n
  {
    if !IsCritical(threat, t[p]) {
      WalkMonotone(t, threat, t[p], n - 1, m - 1);
    }
  }

  /** Everything one_level refuses, ancestry refuses for the same mark, unless it was given
      no hops at all; the daemon never configures that. */
  lemma AncestryCoversOneLevel(s: State, p: Pid, d: nat)
    requires CriticalMatch(Config(OneLevel, d), s, p) != 0
    ensures CriticalMatch(Config(Ancestry, d), s, p) == if d > 0 then CriticalMatch(Config(OneLevel, d), s, p) else 0
  {
    if d > 0 {
      WalkMonotone(s.tree, s.threat, p, 1, Depth(Config(Ancestry, d)));
    }
  }

  // ----- marks over whole runs --------------------------------------------------

  /** What an event does to a Critical mark. */
  function CritSignal(cfg: Config, e: Event): Signal {
    match e
    case Mark(p, l) => if l == CRITICAL then On(p) else Off(p)
    case Fork(a, c) => if cfg.mode.Propagate? then Spawn(a, c) else Skip
    case Exit(p, _) => Off(p)
    case _ => Skip
  }

  /** What an event does to the watch scope. */
  function WatchSignal(e: Event): Signal {
    match e
    case Watch(p) => On(p)
    case Fork(a, c) => Spawn(a, c)
    case Exit(p, _) => Off(p)
    case _ => Skip
  }

  function CritSignals(cfg: Config, tr: seq<Event>): seq<Signal> {
    seq(|tr|, i requires 0 <= i < |tr| => CritSignal(cfg, tr[i]))
  }

  function WatchSignals(tr: seq<Event>): seq<Signal> {
    seq(|tr|, i requires 0 <= i < |tr| => WatchSignal(tr[i]))
  }

  /** The flags a state carries, as sets. */
  ghost predicate Carries(s: State, crit: set<Pid>, watched: set<Pid>) {
    (forall p :: IsCritical(s.threat, p) <==> p in crit) && s.watch == watched
  }

  lemma StepFollowsSignal(cfg: Config, s: State, e: Event, crit: set<Pid>, watched: set<Pid>)
    requires Carries(s, crit, watched)
    ensures Carries(Step(cfg, s, e), Apply(crit, CritSignal(cfg, e)), Apply(watched, WatchSignal(e)))
  {
  }

  lemma {:induction false} MapsFollowSignals(cfg: Config, tr: seq<Event>, n: nat)
    requires n <= |tr|
    ensures Carries(Run(cfg, tr, n), Flagged(CritSignals(cfg, tr), n), Flagged(WatchSignals(tr), n))
  {
    if n > 0 {
      MapsFollowSignals(cfg, tr, n - 1);
      StepFollowsSignal(cfg, Run(cfg, tr, n - 1), tr[n - 1],
                        Flagged(CritSignals(cfg, tr), n - 1), Flagged(WatchSignals(tr), n - 1));
    }
  }

  /** Propagate mode: an exec is refused exactly when a chain of forks leads from a
      Critical mark to the process, each fork made while its parent was still marked.
      Reparenting and the death of ancestors change nothing. */
  lemma RefusedIffMarkedLineage(cfg: Config, tr: seq<Event>, p: Pid)
    requires cfg.mode.Propagate? && Trace(tr) && p in TreeAfter(tr, |tr|)
    ensures CriticalMatch(cfg, Run(cfg, tr, |tr|), p) != 0 <==> Inherits(CritSignals(cfg, tr), p, |tr|)
  {
    TreeIsRooted(tr, |tr|);
    MapsFollowSignals(cfg, tr, |tr|);
    FlaggedIffChain(CritSignals(cfg, tr), p, |tr|);
  }

  /** The watch scope reaches exactly the watched process and what descends from it by
      forks after the watch, in every mode. */
  lemma WatchedIffLineage(cfg: Config, tr: seq<Event>, p: Pid)
    ensures p in Run(cfg, tr, |tr|).watch <==> Inherits(WatchSignals(tr), p, |tr|)
  {
    MapsFollowSignals(cfg, tr, |tr|);
    FlaggedIffChain(WatchSignals(tr), p, |tr|);
  }

  // ----- the other modes ----------------------------------------------------------

  /** Some ancestor within `n` hops and before init is Critical. */
  ghost predicate CriticalWithin(t: Tree, threat: map<Pid, Level>, p: Pid, n: nat) {
    exists k: nat :: 0 < k <= n && Below(t, p, k) && IsCritical(threat, Up(t, p, k))
  }

  lemma WalkFindsAny(t: Tree, threat: map<Pid, Level>, p: Pid, n: nat)
    ensures Walk(t, threat, p, n) != 0 <==> CriticalWithin(t, threat, p, n)
  {
    WalkFindsNearest(t, threat, p, n);
    hide Walk;
    if CriticalWithin(t, threat, p, n) {
      var k: nat :| 0 < k <= n && Below(t, p, k) && IsCritical(threat, Up(t, p, k));
      var m := NearestBelow(t, threat, p, k);
    }
  }

  lemma {:induction false} NearestBelow(t: Tree, threat: map<Pid, Level>, p: Pid, k: nat) returns (m: nat)
    requires 0 < k && Below(t, p, k) && IsCritical(threat, Up(t, p, k))
    ensures m <= k && NearestAt(t, threat, p, m) && INIT < Up(t, p, m)
  {
    hide Up;
    if j :| 0 < j < k && IsCritical(threat, Up(t, p, j)) {
      m := NearestBelow(t, threat, p, j);
    } else {
      m := k;
    }
  }

  /** Userspace marked `a` Critical and has not lowered the mark since, and `a` lives. */
  ghost predicate Standing(tr: seq<Event>, a: Pid) {
    exists m :: 0 <= m < |tr| && StandsSince(tr, m, a)
  }

  ghost predicate StandsSince(tr: seq<Event>, m: nat, a: Pid)
    requires m < |tr|
  {
    && tr[m] == Mark(a, CRITICAL)
    && forall i :: m < i < |tr| ==>
         !(tr[i].Exit? && tr[i].pid == a) && !(tr[i].Mark? && tr[i].pid == a && tr[i].level != CRITICAL)
  }

  /** Without propagation a process is Critical exactly by a standing mark of its own. */
  lemma CriticalIffStanding(cfg: Config, tr: seq<Event>, a: Pid)
    requires !cfg.mode.Propagate?
    ensures IsCritical(Run(cfg, tr, |tr|).threat, a) <==> Standing(tr, a)
  {
    var n, sigs := |tr|, CritSignals(cfg, tr);
    MapsFollowSignals(cfg, tr, n);
    FlaggedIffChain(sigs, a, n);
    hide Run, Flagged;
    if Inherits(sigs, a, n) {
      var ks: seq<nat> :| Chain(sigs, ks, a, n);
      var m := ks[|ks| - 1];
      assert sigs[m] == CritSignal(cfg, tr[m]);
      forall i | m < i < n ensures sigs[i] == CritSignal(cfg, tr[i]) && sigs[i] != Off(a) {}
      assert StandsSince(tr, m, a);
    }
    if Standing(tr, a) {
      var m :| 0 <= m < |tr| && StandsSince(tr, m, a);
      assert Chain(sigs, [m], a, n);
    }
  }

  /** A standing mark on an ancestor within that many hops and before init. */
  ghost predicate MarkedWithin(tr: seq<Event>, p: Pid, hops: nat) {
    exists k: nat :: && 0 < k <= hops && Below(TreeAfter(tr, |tr|), p, k)
                     && Standing(tr, Up(TreeAfter(tr, |tr|), p, k))
  }

  /** one_level looks at the parent, ancestry at the configured number of hops and at most 16. */
  ghost predicate MarkedAncestor(cfg: Config, tr: seq<Event>, p: Pid) {
    match cfg.mode
    case OneLevel => MarkedWithin(tr, p, 1)
    case Ancestry => MarkedWithin(tr, p, if cfg.maxDepth < 16 then cfg.maxDepth else 16)
    case Propagate => false
  }

  /** one_level and ancestry: an exec is refused exactly for such a mark. */
  lemma RefusedIffMarkedAncestor(cfg: Config, tr: seq<Event>, p: Pid)
    requires !cfg.mode.Propagate?
    ensures CriticalMatch(cfg, Run(cfg, tr, |tr|), p) != 0 <==> MarkedAncestor(cfg, tr, p)
  {
    var s := Run(cfg, tr, |tr|);
    WalkFindsAny(s.tree, s.threat, p, Depth(cfg));
    forall a ensures IsCritical(s.threat, a) <==> Standing(tr, a) {
      CriticalIffStanding(cfg, tr, a);
    }
    hide Run, Walk, Standing, IsCritical, Up, Below;
  }

  ghost predicate Rooted(t: Tree) {
    && INIT in t && t[INIT] == 0
    && forall p :: p in t ==> INIT <= p && (p != INIT ==> t[p] in t)
  }

  lemma {:induction false} TreeIsRooted(tr: seq<Event>, n: nat)
    requires n <= |tr| && Trace(tr)
    ensures Rooted(TreeAfter(tr, n))
  {
    if n > 0 {
      TreeIsRooted(tr, n - 1);
      assert Possible(TreeAfter(tr, n - 1), tr[n - 1]);
      GrowKeepsRoot(TreeAfter(tr, n - 1), tr[n - 1]);
    }
  }

  lemma GrowKeepsRoot(t: Tree, e: Event)
    requires Rooted(t) && Sane(t, e)
    ensures Rooted(Grow(t, e))
  {
  }

  /** Both maps only ever hold live PIDs. */
  ghost predicate OnlyLive(s: State) {
    s.threat.Keys <= s.tree.Keys && s.watch <= s.tree.Keys
  }

  lemma StepKeepsLive(cfg: Config, s: State, e: Event)
    requires OnlyLive(s) && Sane(s.tree, e)
    ensures OnlyLive(Step(cfg, s, e))
  {
    match e
    case Exit(p, r) => assert Grow(s.tree, e).Keys == s.tree.Keys - {p};
    case _ =>
  }

  lemma {:induction false} MapsHoldLivePids(cfg: Config, tr: seq<Event>, n: nat)
    requires n <= |tr| && Trace(tr)
    ensures OnlyLive(Run(cfg, tr, n))
  {
    if n > 0 {
      MapsHoldLivePids(cfg, tr, n - 1);
      assert Possible(TreeAfter(tr, n - 1), tr[n - 1]);
      StepKeepsLive(cfg, Run(cfg, tr, n - 1), tr[n - 1]);
    }
  }

  /** A recycled PID starts clean: it has only what its parent hands over at this fork. */
  lemma RecycledPidStartsClean(cfg: Config, tr: seq<Event>, n: nat)
    requires n < |tr| && Trace(tr) && tr[n].Fork?
    ensures var s, s', a, c := Run(cfg, tr, n), Run(cfg, tr, n + 1), tr[n].parent, tr[n].child;
            && (c in s'.threat <==> cfg.mode.Propagate? && IsCritical(s.threat, a))
            && (c in s'.watch <==> a in s.watch)
  {
    MapsHoldLivePids(cfg, tr, n);
    assert Possible(TreeAfter(tr, n), tr[n]);
  }

  // ----- ancestry against propagation -------------------------------------------

  /** `p` does not exit in [lo, hi). */
  ghost predicate Lives(tr: seq<Event>, p: Pid, lo: nat, hi: nat)
    requires hi <= |tr|
  {
    forall i :: lo <= i < hi ==> !(tr[i].Exit? && tr[i].pid == p)
  }

  /** `fs` lists the forks by which `p`, as it lives at `n`, descends from `a`. */
  ghost predicate Descent(tr: seq<Event>, fs: seq<nat>, a: Pid, p: Pid, n: nat)
    requires n <= |tr|
    decreases |fs|
  {
    && fs != []
    && var m := |fs| - 1;
    && fs[m] < n
    && tr[fs[m]].Fork? && tr[fs[m]].child == p
    && Lives(tr, p, fs[m] + 1, n)
    && if m == 0 then tr[fs[0]].parent == a else Descent(tr, fs[..m], a, tr[fs[m]].parent, fs[m])
  }

  /** ... and `a` is still the process that made the first of those forks. */
  ghost predicate LivingDescent(tr: seq<Event>, fs: seq<nat>, a: Pid, p: Pid, n: nat)
    requires n <= |tr|
  {
    Descent(tr, fs, a, p, n) && fs[0] < n && Lives(tr, a, fs[0] + 1, n)
  }

  lemma {:induction false} StaysLive(tr: seq<Event>, p: Pid, i: nat, j: nat)
    requires i <= j <= |tr| && p in TreeAfter(tr, i) && Lives(tr, p, i, j)
    ensures p in TreeAfter(tr, j)
    decreases j - i
  {
    if i < j {
      StaysLive(tr, p, i, j - 1);
    }
  }

  lemma {:induction false} JoinDescents(tr: seq<Event>, fs: seq<nat>, gs: seq<nat>, a: Pid, x: Pid, p: Pid, n: nat)
    requires n <= |tr| && Descent(tr, fs, a, x, n) && Descent(tr, gs, x, p, n)
    requires fs[|fs| - 1] < gs[0]
    ensures Descent(tr, fs + gs, a, p, n)
    decreases |gs|
  {
    var m := |gs| - 1;
    var k := gs[m];
    if m == 0 {
      assert (fs + gs)[..|fs|] == fs;
      DescentBefore(tr, fs, a, x, k, n);
    } else {
      var up := gs[..m];
      FirstBeforeLast(tr, up, x, tr[k].parent, k);
      DescentBefore(tr, fs, a, x, k, n);
      JoinDescents(tr, fs, up, a, x, tr[k].parent, k);
      assert (fs + gs)[..|fs| + m] == fs + up;
    }
  }

  lemma DescentBefore(tr: seq<Event>, fs: seq<nat>, a: Pid, p: Pid, k: nat, n: nat)
    requires k <= n <= |tr| && Descent(tr, fs, a, p, n) && fs[|fs| - 1] < k
    ensures Descent(tr, fs, a, p, k)
  {
  }

  lemma {:induction false} FirstBeforeLast(tr: seq<Event>, fs: seq<nat>, a: Pid, p: Pid, n: nat)
    requires n <= |tr| && Descent(tr, fs, a, p, n)
    ensures fs[0] <= fs[|fs| - 1] < n
    ensures tr[fs[0]].Fork? && tr[fs[0]].parent == a
    decreases |fs|
  {
    var m := |fs| - 1;
    if m > 0 {
      FirstBeforeLast(tr, fs[..m], a, tr[fs[m]].parent, fs[m]);
    }
  }

  /** A process forks only after it was forked. */
  lemma BornBeforeForking(tr: seq<Event>, x: Pid, born: nat, f: nat, n: nat)
    requires n <= |tr| && Trace(tr) && born < n && f < n
    requires tr[born].Fork? && tr[born].child == x && tr[f].Fork? && tr[f].parent == x
    requires Lives(tr, x, f + 1, n)
    ensures born < f
  {
    assert Possible(TreeAfter(tr, f), tr[f]) && Possible(TreeAfter(tr, born), tr[born]);
    if f < born {
      StaysLive(tr, x, f, born);
    }
  }

  lemma LinkDescents(tr: seq<Event>, fs: seq<nat>, gs: seq<nat>, a: Pid, x: Pid, p: Pid, n: nat)
    requires n <= |tr| && Trace(tr)
    requires LivingDescent(tr, fs, a, x, n) && LivingDescent(tr, gs, x, p, n)
    ensures LivingDescent(tr, fs + gs, a, p, n)
  {
    FirstBeforeLast(tr, gs, x, p, n);
    BornBeforeForking(tr, x, fs[|fs| - 1], gs[0], n);
    JoinDescents(tr, fs, gs, a, x, p, n);
  }

  /** A descent outlives any event that is not the exit of one of its ends. */
  lemma DescentPersists(tr: seq<Event>, fs: seq<nat>, a: Pid, p: Pid, n: nat)
    requires 0 < n <= |tr| && LivingDescent(tr, fs, a, p, n - 1)
    requires Lives(tr, a, n - 1, n) && Lives(tr, p, n - 1, n)
    ensures LivingDescent(tr, fs, a, p, n)
  {
  }

  lemma DescentByFork(tr: seq<Event>, a: Pid, p: Pid, n: nat)
    requires 0 < n <= |tr| && tr[n - 1] == Fork(a, p)
    ensures LivingDescent(tr, [n - 1], a, p, n)
  {
  }

  lemma InitNeverExits(tr: seq<Event>)
    requires Trace(tr)
    ensures Lives(tr, INIT, 0, |tr|)
  {
    forall i | 0 <= i < |tr| ensures !(tr[i].Exit? && tr[i].pid == INIT) {
      assert Possible(TreeAfter(tr, i), tr[i]);
    }
  }

  lemma Alive(tr: seq<Event>, n: nat)
    requires Trace(tr) && 0 < n <= |tr|
    ensures Possible(TreeAfter(tr, n - 1), tr[n - 1])
  {
  }

  lemma {:induction false} RootDescent(tr: seq<Event>, n: nat, p: Pid) returns (fs: seq<nat>)
    requires n <= |tr| && Trace(tr) && p in TreeAfter(tr, n) && p != INIT
    ensures LivingDescent(tr, fs, INIT, p, n)
    decreases n
  {
    InitNeverExits(tr);
    Alive(tr, n);
    var e := tr[n - 1];
    if e.Fork? && e.child == p {
      DescentByFork(tr, e.parent, p, n);
      fs := [n - 1];
      if e.parent != INIT {
        var up := RootDescent(tr, n - 1, e.parent);
        DescentPersists(tr, up, INIT, e.parent, n);
        LinkDescents(tr, up, fs, INIT, e.parent, p, n);
        fs := up + fs;
      }
    } else {
      fs := RootDescent(tr, n - 1, p);
      DescentPersists(tr, fs, INIT, p, n);
    }
  }

  /** A live process descends by forks from whoever is its parent now, even after it was
      reparented to a subreaper. */
  lemma {:induction false} ParentDescent(tr: seq<Event>, n: nat, p: Pid) returns (fs: seq<nat>)
    requires n <= |tr| && Trace(tr) && p in TreeAfter(tr, n) && p != INIT
    ensures LivingDescent(tr, fs, TreeAfter(tr, n)[p], p, n)
    decreases n, 0
  {
    var e, t := tr[n - 1], TreeAfter(tr, n - 1);
    Alive(tr, n);
    if e.Fork? && e.child == p {
      DescentByFork(tr, e.parent, p, n);
      fs := [n - 1];
    } else if e.Exit? && t[p] == e.pid {
      if e.reaper == INIT {
        fs := RootDescent(tr, n, p);
      } else {
        var k: nat :| 0 < k && Up(t, e.pid, k) == e.reaper;
        var above := AncestorDescent(tr, n - 1, e.pid, k);
        var below := ParentDescent(tr, n - 1, p);
        LinkDescents(tr, above, below, e.reaper, e.pid, p, n - 1);
        fs := above + below;
        DescentPersists(tr, fs, e.reaper, p, n);
      }
    } else {
      fs := ParentDescent(tr, n - 1, p);
      DescentPersists(tr, fs, t[p], p, n);
    }
  }

  lemma {:induction false} AncestorDescent(tr: seq<Event>, n: nat, p: Pid, k: nat) returns (fs: seq<nat>)
    requires n <= |tr| && Trace(tr) && p in TreeAfter(tr, n)
    requires 0 < k && Up(TreeAfter(tr, n), p, k) in TreeAfter(tr, n)
    ensures LivingDescent(tr, fs, Up(TreeAfter(tr, n), p, k), p, n)
    decreases n, k
  {
    var t := TreeAfter(tr, n);
    TreeIsRooted(tr, n);
    assert p != INIT;
    fs := ParentDescent(tr, n, p);
    if k > 1 {
      var above := AncestorDescent(tr, n, t[p], k - 1);
      LinkDescents(tr, above, fs, Up(t, p, k), t[p], p, n);
      fs := above + fs;
    }
  }

  /** Userspace never clears or lowers a mark. */
  ghost predicate NoDowngrade(tr: seq<Event>) {
    forall i :: 0 <= i < |tr| ==> (tr[i].Mark? ==> tr[i].level == CRITICAL)
  }

  ghost predicate MarkedAt(tr: seq<Event>, m: nat, a: Pid) {
    m < |tr| && tr[m] == Mark(a, CRITICAL) && Lives(tr, a, m + 1, |tr|)
  }

  lemma {:induction false} DescentIsChain(cfg: Config, tr: seq<Event>, fs: seq<nat>, m: nat, a: Pid, p: Pid, n: nat)
    requires cfg.mode.Propagate? && NoDowngrade(tr) && n <= |tr| && Descent(tr, fs, a, p, n)
    requires MarkedAt(tr, m, a) && m < fs[0]
    ensures Chain(CritSignals(cfg, tr), [m] + fs, p, n)
    decreases |fs|
  {
    var sigs, j := CritSignals(cfg, tr), |fs| - 1;
    var ks := [m] + fs;
    if j == 0 {
      assert ks[..1] == [m];
    } else {
      DescentIsChain(cfg, tr, fs[..j], m, a, tr[fs[j]].parent, fs[j]);
      assert ks[..|ks| - 1] == [m] + fs[..j];
    }
  }

  /** Whatever ancestry refuses because of a mark on `a`, the refused process descends from
      `a` by forks, and if the mark came before the first of them, propagate mode refuses
      the same exec on the same run. */
  lemma AncestryRefusalsPropagate(d: nat, tr: seq<Event>, p: Pid)
    requires Trace(tr) && NoDowngrade(tr) && p in TreeAfter(tr, |tr|)
    ensures var anc, pro, n := Config(Ancestry, d), Config(Propagate, d), |tr|;
            var a := CriticalMatch(anc, Run(anc, tr, n), p);
            a != 0 ==>
              && (exists fs, m :: LivingDescent(tr, fs, a, p, n) && MarkedAt(tr, m, a))
              && forall fs, m :: LivingDescent(tr, fs, a, p, n) && MarkedAt(tr, m, a) && m < fs[0]
                   ==> CriticalMatch(pro, Run(pro, tr, n), p) == p
  {
    var anc, pro, n := Config(Ancestry, d), Config(Propagate, d), |tr|;
    var a := CriticalMatch(anc, Run(anc, tr, n), p);
    if a != 0 {
      var fs := AncestryFindsAncestor(d, tr, p);
      var m := MarkOf(anc, tr, a);
      forall fs, m | LivingDescent(tr, fs, a, p, n) && MarkedAt(tr, m, a) && m < fs[0]
        ensures CriticalMatch(pro, Run(pro, tr, n), p) == p
      {
        hide *;
        EarlyMarkPropagates(pro, tr, fs, m, a, p);
      }
    }
  }

  lemma AncestryFindsAncestor(d: nat, tr: seq<Event>, p: Pid) returns (fs: seq<nat>)
    requires Trace(tr) && p in TreeAfter(tr, |tr|)
    requires CriticalMatch(Config(Ancestry, d), Run(Config(Ancestry, d), tr, |tr|), p) != 0
    ensures var a := CriticalMatch(Config(Ancestry, d), Run(Config(Ancestry, d), tr, |tr|), p);
            IsCritical(Run(Config(Ancestry, d), tr, |tr|).threat, a) && LivingDescent(tr, fs, a, p, |tr|)
  {
    hide Trace, LivingDescent, Walk;
    var anc, n := Config(Ancestry, d), |tr|;
    var s := Run(anc, tr, n);
    WalkFindsNearest(s.tree, s.threat, p, Depth(anc));
    var k: nat :| k <= Depth(anc) && NearestAt(s.tree, s.threat, p, k);
    MapsHoldLivePids(anc, tr, n);
    fs := AncestorDescent(tr, n, p, k);
  }

  /** Without propagation a mark is there only because userspace put it there. */
  lemma MarkOf(cfg: Config, tr: seq<Event>, a: Pid) returns (m: nat)
    requires !cfg.mode.Propagate? && IsCritical(Run(cfg, tr, |tr|).threat, a)
    ensures MarkedAt(tr, m, a)
  {
    var n, sigs := |tr|, CritSignals(cfg, tr);
    MapsFollowSignals(cfg, tr, n);
    FlaggedIffChain(sigs, a, n);
    hide Run, Flagged;
    var ks: seq<nat> :| Chain(sigs, ks, a, n);
    m := ks[|ks| - 1];
    assert sigs[m] == CritSignal(cfg, tr[m]);
    forall i | m < i < n ensures !(tr[i].Exit? && tr[i].pid == a) {
      assert sigs[i] != Off(a);
    }
  }

  lemma EarlyMarkPropagates(cfg: Config, tr: seq<Event>, fs: seq<nat>, m: nat, a: Pid, p: Pid)
    requires cfg.mode.Propagate? && Trace(tr) && NoDowngrade(tr) && p in TreeAfter(tr, |tr|)
    requires LivingDescent(tr, fs, a, p, |tr|) && MarkedAt(tr, m, a) && m < fs[0]
    ensures CriticalMatch(cfg, Run(cfg, tr, |tr|), p) == p
  {
    hide Trace, Run, Chain, IsCritical;
    DescentIsChain(cfg, tr, fs, m, a, p, |tr|);
    assert Inherits(CritSignals(cfg, tr), p, |tr|);
    RefusedIffMarkedLineage(cfg, tr, p);
  }

  /** The order matters: a mark placed after the fork is seen by the ancestor walk and not
      by the forked child's own entry. */
  lemma LateMarkOnlyAncestry()
    ensures var tr := [Fork(1, 2), Fork(2, 3), Mark(2, CRITICAL)];
            && Trace(tr) && NoDowngrade(tr)
            && CriticalMatch(Config(Ancestry, 8), Run(Config(Ancestry, 8), tr, 3), 3) == 2
            && CriticalMatch(Config(Propagate, 8), Run(Config(Propagate, 8), tr, 3), 3) == 0
  {
    var tr := [Fork(1, 2), Fork(2, 3), Mark(2, CRITICAL)];
    assert TreeAfter(tr, 1) == map[1 := 0, 2 := 1];
    assert TreeAfter(tr, 2) == map[1 := 0, 2 := 1, 3 := 2];
    forall cfg: Config ensures Run(cfg, tr, 3).threat == map[2 := CRITICAL] {
      assert Run(cfg, tr, 1).threat == map[];
      assert Run(cfg, tr, 2).threat == map[];
    }
  }
}
