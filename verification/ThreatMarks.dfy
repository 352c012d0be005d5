/** The PID-incarnation protocol: the SetThreatLevel gate and the userspace threat map,
    step by step against processes that exit and PIDs that are reused.

    Each /proc read and each locked section is one atomic step. A start time never comes
    back for the same PID within a boot. */
module ThreatMarks {

  type Pid = nat
  type Uid = nat
  type Time = nat
  type Tid = nat

  datatype Level = Low | High | Critical
  datatype Entry = Entry(level: Level, start: Time)
  datatype Proc = Proc(start: Time, owner: Uid)
  datatype Read<T> = Found(value: T) | NotFound | Error

  // ----- the map ----------------------------------------------------------------

  function RemoveIf(inner: map<Pid, Entry>, pid: Pid, start: Time): map<Pid, Entry> {
    if pid in inner && inner[pid].start == start then inner - {pid} else inner
  }

  function Recorded(inner: map<Pid, Entry>, pid: Pid, level: Level, start: Time): map<Pid, Entry> {
    if level.Low? then inner - {pid} else inner[pid := Entry(level, start)]
  }

  /** What `get` answers from the stored entry and its own /proc read. */
  function Answer(e: Entry, r: Read<Time>): Level {
    match r
    case Found(now) => if now == e.start then e.level else Low
    case NotFound => Low
    case Error => e.level
  }

  /** The read shows that the entry is for another process or for none. */
  predicate ShowsStale(e: Entry, r: Read<Time>) {
    r.NotFound? || (r.Found? && r.value != e.start)
  }

  class ThreatMap {
    var inner: map<Pid, Entry>

    constructor ()
      ensures inner == map[]
    {
      inner := map[];
    }

    /** `set`, with the outcome of its own /proc read. */
    method Set(pid: Pid, level: Level, r: Read<Time>) returns (ok: bool)
      modifies this
      ensures ok <==> level.Low? || r.Found?
      ensures inner == if level.Low? then old(inner) - {pid}
                       else if r.Found? then old(inner)[pid := Entry(level, r.value)]
                       else old(inner)
    {
      if level.Low? {
        inner := inner - {pid};
        return true;
      }
      match r {
        case Found(t) =>
          SetWithStarttime(pid, level, t);
          return true;
        case NotFound => return false;
        case Error => return false;
      }
    }

    method SetWithStarttime(pid: Pid, level: Level, start: Time)
      modifies this
      ensures inner == Recorded(old(inner), pid, level, start)
    {
      if level.Low? {
        inner := inner - {pid};
      } else {
        inner := inner[pid := Entry(level, start)];
      }
    }

    /** `get` when nothing runs in between: a stale entry goes, a doubtful one stays. */
    method Get(pid: Pid, r: Read<Time>) returns (level: Level)
      modifies this
      ensures level == if pid in old(inner) then Answer(old(inner)[pid], r) else Low
      ensures inner == if pid in old(inner) && ShowsStale(old(inner)[pid], r) then old(inner) - {pid} else old(inner)
    {
      if pid !in inner {
        return Low;
      }
      var stored := inner[pid];
      match r {
        case Error => return stored.level;
        case NotFound =>
          EvictIfStale(pid, stored.start);
          return Low;
        case Found(now) =>
          if now == stored.start {
            return stored.level;
          }
          EvictIfStale(pid, stored.start);
          return Low;
      }
    }

    method EvictIfStale(pid: Pid, start: Time)
      modifies this
      ensures inner == RemoveIf(old(inner), pid, start)
    {
      if pid in inner && inner[pid].start == start {
        inner := inner - {pid};
      }
    }
  }

  // ----- the protocol -----------------------------------------------------------

  /** A SetThreatLevel or `get` call between two of its steps. `seen` is the start time the
      process had when the gate read its owner. */
  datatype Task =
    | Asked(uid: Uid, pid: Pid, level: Level)                             // non-root, nothing read
    | Started(uid: Uid, pid: Pid, level: Level, first: Time)              // first start time read
    | Owned(uid: Uid, pid: Pid, level: Level, first: Time, seen: Time)    // owner read and accepted
    | Cleared(uid: Uid, pid: Pid, level: Level, start: Time, seen: Time)  // second read agreed
    | RootAsked(pid: Pid, level: Level)
    | RootReady(pid: Pid, level: Level, start: Time)
    | Evicting(uid: Uid, pid: Pid)                                        // a Low request past its gate
    | Looking(pid: Pid, entry: Entry)                                     // get, entry copied out
    | Stale(pid: Pid, start: Time)                                        // get, about to evict

  datatype State = State(
    live: map<Pid, Proc>,
    used: set<(Pid, Time)>,
    inner: map<Pid, Entry>,
    tasks: map<Tid, Task>)

  datatype Event =
    | Spawn(pid: Pid, proc: Proc)
    | Exit(pid: Pid)
    | Setuid(pid: Pid, to: Uid)
    | Ask(tid: Tid, task: Task)
    | ReadStart(tid: Tid, start: Read<Time>)
    | ReadOwner(tid: Tid, owner: Read<Uid>)
    | Commit(tid: Tid)
    | Evict(tid: Tid)
    | Lookup(tid: Tid, pid: Pid)
    | EvictIfStale(tid: Tid)

  const BOOT := State(map[], {}, map[], map[])

  /** What /proc can answer now; any read may also fail. */
  predicate MayRead<T(==)>(live: map<Pid, Proc>, pid: Pid, r: Read<T>, value: Proc -> T) {
    match r
    case Found(v) => pid in live && v == value(live[pid])
    case NotFound => pid !in live
    case Error => true
  }

  /** The tasks that read a start time next. */
  predicate WantsStart(k: Task) {
    || (k.Asked? && !k.level.Low?) || k.Owned? || (k.RootAsked? && !k.level.Low?) || k.Looking?
  }

  predicate WantsOwner(k: Task) {
    k.Started? || (k.Asked? && k.level.Low?)
  }

  predicate Enabled(s: State, e: Event) {
    match e
    case Spawn(p, proc) => p !in s.live && (p, proc.start) !in s.used
    case Exit(p) => p in s.live
    case Setuid(p, _) => p in s.live
    case Ask(t, k) => t !in s.tasks && (k.Asked? || k.RootAsked?)
    case ReadStart(t, r) => t in s.tasks && WantsStart(s.tasks[t]) &&
                            MayRead(s.live, s.tasks[t].pid, r, (q: Proc) => q.start)
    case ReadOwner(t, r) => t in s.tasks && WantsOwner(s.tasks[t]) &&
                            MayRead(s.live, s.tasks[t].pid, r, (q: Proc) => q.owner)
    case Commit(t) => t in s.tasks && (s.tasks[t].Cleared? || s.tasks[t].RootReady?)
    case Evict(t) => t in s.tasks && (s.tasks[t].Evicting? || (s.tasks[t].RootAsked? && s.tasks[t].level.Low?))
    case Lookup(t, _) => t !in s.tasks
    case EvictIfStale(t) => t in s.tasks && s.tasks[t].Stale?
  }

  datatype Next = Ends | Goes(task: Task)

  /** What the call does after a start-time read. */
  function AfterStart(k: Task, r: Read<Time>): Next
    requires WantsStart(k)
  {
    match k
    case Asked(uid, pid, level) => if r.Found? then Goes(Started(uid, pid, level, r.value)) else Ends
    case Owned(uid, pid, level, first, seen) =>
      if r.Found? && r.value == first then Goes(Cleared(uid, pid, level, r.value, seen)) else Ends
    case RootAsked(pid, level) => if r.Found? then Goes(RootReady(pid, level, r.value)) else Ends
    case Looking(pid, e) => if ShowsStale(e, r) then Goes(Stale(pid, e.start)) else Ends
  }

  function AfterOwner(s: State, k: Task, r: Read<Uid>): Next
    requires WantsOwner(k)
  {
    match k
    case Started(uid, pid, level, first) =>
      if r == Found(uid) && pid in s.live then Goes(Owned(uid, pid, level, first, s.live[pid].start)) else Ends
    case Asked(uid, pid, level) => if r == Found(uid) || r.NotFound? then Goes(Evicting(uid, pid)) else Ends
  }

  function Continue(tasks: map<Tid, Task>, t: Tid, n: Next): map<Tid, Task> {
    if n.Goes? then tasks[t := n.task] else tasks - {t}
  }

  function Step(s: State, e: Event): State
    requires Enabled(s, e)
  {
    match e
    case Spawn(p, proc) => s.(live := s.live[p := proc], used := s.used + {(p, proc.start)})
    case Exit(p) => s.(live := s.live - {p})
    case Setuid(p, u) => s.(live := s.live[p := s.live[p].(owner := u)])
    case Ask(t, k) => s.(tasks := s.tasks[t := k])
    case ReadStart(t, r) => s.(tasks := Continue(s.tasks, t, AfterStart(s.tasks[t], r)))
    case ReadOwner(t, r) => s.(tasks := Continue(s.tasks, t, AfterOwner(s, s.tasks[t], r)))
    case Commit(t) =>
      var k := s.tasks[t];
      s.(inner := Recorded(s.inner, k.pid, k.level, k.start), tasks := s.tasks - {t})
    case Evict(t) => s.(inner := s.inner - {s.tasks[t].pid}, tasks := s.tasks - {t})
    case Lookup(t, p) => if p in s.inner then s.(tasks := s.tasks[t := Looking(p, s.inner[p])]) else s
    case EvictIfStale(t) => s.(inner := RemoveIf(s.inner, s.tasks[t].pid, s.tasks[t].start), tasks := s.tasks - {t})
  }

  // ----- invariant --------------------------------------------------------------

  predicate IsLive(s: State, pid: Pid, start: Time) {
    pid in s.live && s.live[pid].start == start
  }

  /** An incarnation that existed and is over. */
  predicate Gone(s: State, pid: Pid, start: Time) {
    (pid, start) in s.used && !IsLive(s, pid, start)
  }

  ghost predicate TaskOk(s: State, k: Task) {
    match k
    case Started(_, pid, _, first) => (pid, first) in s.used
    case Owned(_, pid, _, first, seen) => seen == first || Gone(s, pid, first)
    case Cleared(_, pid, level, start, seen) => seen == start && (pid, start) in s.used
    case RootReady(pid, _, start) => (pid, start) in s.used
    case Looking(pid, e) => (pid, e.start) in s.used
    case Stale(pid, start) => Gone(s, pid, start)
    case _ => true
  }

  ghost predicate Inv(s: State) {
    && (forall p :: p in s.live ==> (p, s.live[p].start) in s.used)
    && (forall p :: p in s.inner ==> (p, s.inner[p].start) in s.used)
    && forall t :: t in s.tasks ==> TaskOk(s, s.tasks[t])
  }

  /** Nothing that is over comes back. */
  lemma GoneForever(s: State, e: Event, pid: Pid, start: Time)
    requires Enabled(s, e) && Gone(s, pid, start)
    ensures Gone(Step(s, e), pid, start)
  {
  }

  lemma TaskStaysOk(s: State, e: Event, k: Task)
    requires Enabled(s, e) && TaskOk(s, k)
    ensures TaskOk(Step(s, e), k)
  {
    match k
    case Owned(_, pid, _, first, seen) => if seen != first { GoneForever(s, e, pid, first); }
    case Stale(pid, start) => GoneForever(s, e, pid, start);
    case _ =>
  }

  lemma StepKeepsInv(s: State, e: Event)
    requires Inv(s) && Enabled(s, e)
    ensures Inv(Step(s, e))
  {
    var s' := Step(s, e);
    forall t | t in s'.tasks ensures TaskOk(s', s'.tasks[t]) {
      if t in s.tasks && s'.tasks[t] == s.tasks[t] {
        TaskStaysOk(s, e, s.tasks[t]);
      }
    }
  }

  // ----- whole runs -------------------------------------------------------------

  ghost predicate Run(es: seq<Event>, ss: seq<State>) {
    && |ss| == |es| + 1 && ss[0] == BOOT
    && forall i {:trigger es[i]} :: 0 <= i < |es| ==> Enabled(ss[i], es[i]) && ss[i + 1] == Step(ss[i], es[i])
  }

  lemma {:induction false} InvHolds(es: seq<Event>, ss: seq<State>, n: nat)
    requires Run(es, ss) && n < |ss|
    ensures Inv(ss[n])
  {
    if n > 0 {
      InvHolds(es, ss, n - 1);
      StepKeepsInv(ss[n - 1], es[n - 1]);
      assert ss[n - 1 + 1] == Step(ss[n - 1], es[n - 1]);
    }
  }

  /** At step `j` the owner read of call `t` saw `(pid, start)` owned by `uid`. */
  ghost predicate OwnerSeen(es: seq<Event>, ss: seq<State>, j: nat, t: Tid, pid: Pid, start: Time, uid: Uid) {
    j < |es| && j < |ss| && es[j] == ReadOwner(t, Found(uid)) &&
    pid in ss[j].live && ss[j].live[pid] == Proc(start, uid)
  }

  /** Strictly between `lo` and `hi` thread `t` started no other call. */
  ghost predicate SameCall(es: seq<Event>, t: Tid, lo: nat, hi: nat)
    requires hi <= |es|
  {
    forall m :: lo < m < hi ==> !((es[m].Ask? || es[m].Lookup?) && es[m].tid == t)
  }

  lemma {:induction false} OwnerReadHappened(es: seq<Event>, ss: seq<State>, n: nat, t: Tid) returns (j: nat)
    requires Run(es, ss) && n < |ss| && t in ss[n].tasks
    requires ss[n].tasks[t].Owned? || ss[n].tasks[t].Cleared?
    ensures j < n && OwnerSeen(es, ss, j, t, ss[n].tasks[t].pid, ss[n].tasks[t].seen, ss[n].tasks[t].uid)
    ensures SameCall(es, t, j, n)
  {
    var s, e := ss[n - 1], es[n - 1];
    assert ss[n - 1 + 1] == Step(s, e);
    if e.ReadOwner? && e.tid == t {
      j := n - 1;
    } else {
      j := OwnerReadHappened(es, ss, n - 1, t);
    }
  }

  /** The request that a SetThreatLevel call still carries out. */
  predicate AskedAs(request: Task, k: Task) {
    match k
    case Started(uid, pid, level, _) => request == Asked(uid, pid, level)
    case Owned(uid, pid, level, _, _) => request == Asked(uid, pid, level)
    case Cleared(uid, pid, level, _, _) => request == Asked(uid, pid, level)
    case Evicting(uid, pid) => request == Asked(uid, pid, Low)
    case RootReady(pid, level, _) => request == RootAsked(pid, level)
    case _ => request == k
  }

  lemma {:induction false} AskHappened(es: seq<Event>, ss: seq<State>, n: nat, t: Tid) returns (a: nat)
    requires Run(es, ss) && n < |ss| && t in ss[n].tasks && !ss[n].tasks[t].Looking? && !ss[n].tasks[t].Stale?
    ensures a < n && SameCall(es, t, a, n) && es[a].Ask? && es[a].tid == t && AskedAs(es[a].task, ss[n].tasks[t])
  {
    var s, e := ss[n - 1], es[n - 1];
    assert Enabled(s, e) && ss[n - 1 + 1] == Step(s, e);
    if e.Ask? && e.tid == t {
      a := n - 1;
    } else {
      StepOfCall(s, e, t);
      hide Step, Enabled;
      a := AskHappened(es, ss, n - 1, t);
    }
  }

  lemma StepOfCall(s: State, e: Event, t: Tid)
    requires Enabled(s, e) && t in Step(s, e).tasks && !(e.Ask? && e.tid == t)
    requires !Step(s, e).tasks[t].Looking? && !Step(s, e).tasks[t].Stale?
    ensures !(e.Lookup? && e.tid == t) && t in s.tasks && !s.tasks[t].Looking? && !s.tasks[t].Stale?
    ensures forall q :: AskedAs(q, s.tasks[t]) ==> AskedAs(q, Step(s, e).tasks[t])
  {
  }

  /** A mark by a non-root caller is recorded exactly as that caller asked, and only for the
      very incarnation whose owner the gate of the same call read; that owner was the caller. */
  lemma MarksOnlyOwnProcesses(es: seq<Event>, ss: seq<State>, i: nat) returns (a: nat, j: nat)
    requires Run(es, ss) && i < |es| && es[i].Commit? && ss[i].tasks[es[i].tid].Cleared?
    ensures var t, k := es[i].tid, ss[i].tasks[es[i].tid];
            && a < j < i && SameCall(es, t, a, i)
            && es[a] == Ask(t, Asked(k.uid, k.pid, k.level)) && !k.level.Low?
            && OwnerSeen(es, ss, j, t, k.pid, k.start, k.uid)
            && ss[i + 1].inner == ss[i].inner[k.pid := Entry(k.level, k.start)]
  {
    InvHolds(es, ss, i);
    a := AskHappened(es, ss, i, es[i].tid);
    j := OwnerReadHappened(es, ss, i, es[i].tid);
    assert ss[i + 1] == Step(ss[i], es[i]);
    CommitIsHigh(es, ss, i, es[i].tid);
  }

  /** The same for root, who needs no owner read. */
  lemma RootMarksAsAsked(es: seq<Event>, ss: seq<State>, i: nat) returns (a: nat, j: nat)
    requires Run(es, ss) && i < |es| && es[i].Commit? && ss[i].tasks[es[i].tid].RootReady?
    ensures var t, k := es[i].tid, ss[i].tasks[es[i].tid];
            && a < j < i && SameCall(es, t, a, i)
            && es[a] == Ask(t, RootAsked(k.pid, k.level)) && !k.level.Low?
            && CommitRead(es, ss, j, t, k.pid, k.start)
            && ss[i + 1].inner == ss[i].inner[k.pid := Entry(k.level, k.start)]
  {
    a := AskHappened(es, ss, i, es[i].tid);
    j := CommitReadHappened(es, ss, i, es[i].tid);
    assert ss[i + 1] == Step(ss[i], es[i]);
    CommitIsHigh(es, ss, i, es[i].tid);
  }

  /** No step touches a mark but that of the PID its call is about. */
  lemma OtherMarksStay(s: State, e: Event, p: Pid)
    requires Enabled(s, e)
    requires (e.Commit? || e.Evict? || e.EvictIfStale?) ==> s.tasks[e.tid].pid != p
    ensures p in Step(s, e).inner <==> p in s.inner
    ensures p in s.inner ==> Step(s, e).inner[p] == s.inner[p]
  {
  }

  /** The owner's request goes through when nothing disturbs it and /proc can be read. */
  lemma OwnerIsServed(s: State, t: Tid, uid: Uid, pid: Pid, level: Level)
    requires t !in s.tasks && pid in s.live && s.live[pid].owner == uid && !level.Low?
    ensures var start := s.live[pid].start;
            Follow(s, [Ask(t, Asked(uid, pid, level)), ReadStart(t, Found(start)), ReadOwner(t, Found(uid)),
                       ReadStart(t, Found(start)), Commit(t)]) ==
            Reached(s.(inner := s.inner[pid := Entry(level, start)]))
  {
    var start := s.live[pid].start;
    var s3 := s.(tasks := s.tasks[t := Owned(uid, pid, level, start, start)]);
    var e1, e2, e3 := Ask(t, Asked(uid, pid, level)), ReadStart(t, Found(start)), ReadOwner(t, Found(uid));
    GateOpens(s, t, uid, pid, level, [e2, Commit(t)]);
    GateCommits(s, t, uid, pid, level);
    hide Follow, Step, Enabled;
    assert [e1, e2, e3] + [e2, Commit(t)] == [e1, e2, e3, e2, Commit(t)];
  }

  lemma GateOpens(s: State, t: Tid, uid: Uid, pid: Pid, level: Level, rest: seq<Event>)
    requires t !in s.tasks && pid in s.live && s.live[pid].owner == uid && !level.Low?
    ensures var start := s.live[pid].start;
            Follow(s, [Ask(t, Asked(uid, pid, level)), ReadStart(t, Found(start)), ReadOwner(t, Found(uid))] + rest) ==
            Follow(s.(tasks := s.tasks[t := Owned(uid, pid, level, start, start)]), rest)
  {
    hide Follow;
    var start := s.live[pid].start;
    var s1 := s.(tasks := s.tasks[t := Asked(uid, pid, level)]);
    var s2 := s.(tasks := s.tasks[t := Started(uid, pid, level, start)]);
    var s3 := s.(tasks := s.tasks[t := Owned(uid, pid, level, start, start)]);
    var e1, e2, e3 := Ask(t, Asked(uid, pid, level)), ReadStart(t, Found(start)), ReadOwner(t, Found(uid));
    FollowOne(s2, e3, s3, rest);
    FollowOne(s1, e2, s2, [e3] + rest);
    FollowOne(s, e1, s1, [e2] + ([e3] + rest));
    assert [e1, e2, e3] + rest == [e1] + ([e2] + ([e3] + rest));
  }

  lemma GateCommits(s: State, t: Tid, uid: Uid, pid: Pid, level: Level)
    requires t !in s.tasks && pid in s.live && !level.Low?
    ensures var start := s.live[pid].start;
            var passed := s.(tasks := s.tasks[t := Owned(uid, pid, level, start, start)]);
            Follow(passed, [ReadStart(t, Found(start)), Commit(t)]) ==
            Reached(s.(inner := s.inner[pid := Entry(level, start)]))
  {
    var start := s.live[pid].start;
    var s3 := s.(tasks := s.tasks[t := Owned(uid, pid, level, start, start)]);
    var s4 := s.(tasks := s.tasks[t := Cleared(uid, pid, level, start, start)]);
    var s5 := s.(inner := s.inner[pid := Entry(level, start)]);
    assert Follow(s5, []) == Reached(s5);
    hide Follow;
    FollowOne(s4, Commit(t), s5, []);
    FollowOne(s3, ReadStart(t, Found(start)), s4, [Commit(t)]);
    assert [ReadStart(t, Found(start)), Commit(t)] == [ReadStart(t, Found(start))] + [Commit(t)];
    assert [Commit(t)] + [] == [Commit(t)];
  }

  datatype Outcome = Reached(state: State) | Impossible

  /** Where a sequence of events leads. */
  ghost function Follow(s: State, es: seq<Event>): Outcome
    decreases |es|
  {
    if es == [] then Reached(s) else if !Enabled(s, es[0]) then Impossible else Follow(Step(s, es[0]), es[1..])
  }

  lemma FollowOne(s: State, e: Event, s': State, rest: seq<Event>)
    requires Enabled(s, e) && Step(s, e) == s'
    ensures Follow(s, [e] + rest) == Follow(s', rest)
  {
    assert ([e] + rest)[1..] == rest;
  }

  /** Anyone else's request ends at the owner read, with every mark as it was. */
  lemma ForeignRequestEnds(s: State, t: Tid, owner: Uid)
    requires t in s.tasks && Enabled(s, ReadOwner(t, Found(owner))) && s.tasks[t].uid != owner
    ensures Step(s, ReadOwner(t, Found(owner))) == s.(tasks := s.tasks - {t})
  {
  }

  /** Step `j` recorded `level` for the incarnation `(pid, start)`. */
  ghost predicate MarkedAt(es: seq<Event>, ss: seq<State>, j: nat, pid: Pid, e: Entry) {
    && j < |es| && j < |ss| && es[j].Commit? && es[j].tid in ss[j].tasks
    && var k := ss[j].tasks[es[j].tid];
       (k.Cleared? || k.RootReady?) && k.pid == pid && k.level == e.level && k.start == e.start && !k.level.Low?
  }

  lemma {:induction false} EntryWasMarked(es: seq<Event>, ss: seq<State>, n: nat, pid: Pid) returns (j: nat)
    requires Run(es, ss) && n < |ss| && pid in ss[n].inner
    ensures j < n && MarkedAt(es, ss, j, pid, ss[n].inner[pid])
  {
    var s, e := ss[n - 1], es[n - 1];
    assert ss[n - 1 + 1] == Step(s, e);
    if e.Commit? && s.tasks[e.tid].pid == pid && !s.tasks[e.tid].level.Low? {
      j := n - 1;
    } else {
      j := EntryWasMarked(es, ss, n - 1, pid);
    }
  }

  lemma {:induction false} LookedEntryWasMarked(es: seq<Event>, ss: seq<State>, n: nat, t: Tid) returns (j: nat)
    requires Run(es, ss) && n < |ss| && t in ss[n].tasks && ss[n].tasks[t].Looking?
    ensures j < n && MarkedAt(es, ss, j, ss[n].tasks[t].pid, ss[n].tasks[t].entry)
  {
    var s, e := ss[n - 1], es[n - 1];
    assert ss[n - 1 + 1] == Step(s, e);
    if e.Lookup? && e.tid == t {
      j := EntryWasMarked(es, ss, n - 1, e.pid);
    } else {
      j := LookedEntryWasMarked(es, ss, n - 1, t);
    }
  }

  /** `get` answers the level that the incarnation it looked up was itself given, if that one
      is alive under the PID at its read or the read failed, and Low otherwise; and exactly in
      the latter case it goes on to evict. */
  lemma GetAnswersOnlyMarked(es: seq<Event>, ss: seq<State>, i: nat) returns (j: nat)
    requires Run(es, ss) && i < |es| && es[i].ReadStart? && es[i].tid in ss[i].tasks
    requires ss[i].tasks[es[i].tid].Looking?
    ensures var t, k, r := es[i].tid, ss[i].tasks[es[i].tid], es[i].start;
            var holds := IsLive(ss[i], k.pid, k.entry.start) || r.Error?;
            && Answer(k.entry, r) == (if holds then k.entry.level else Low)
            && ss[i + 1].tasks == (if holds then ss[i].tasks - {t} else ss[i].tasks[t := Stale(k.pid, k.entry.start)])
            && j < i && MarkedAt(es, ss, j, k.pid, k.entry)
  {
    assert Enabled(ss[i], es[i]) && ss[i + 1] == Step(ss[i], es[i]);
    j := LookedEntryWasMarked(es, ss, i, es[i].tid);
  }

  /** What `get` looks up is the entry there is, and what it evicts is gone afterwards. */
  lemma LookupAndEviction(s: State, t: Tid, pid: Pid)
    ensures Enabled(s, Lookup(t, pid)) ==>
              Step(s, Lookup(t, pid)).tasks ==
              if pid in s.inner then s.tasks[t := Looking(pid, s.inner[pid])] else s.tasks
    ensures Enabled(s, EvictIfStale(t)) ==>
              var k, after := s.tasks[t], Step(s, EvictIfStale(t)).inner;
              !(k.pid in after && after[k.pid].start == k.start)
  {
  }

  /** The eviction by `get` never removes the entry of a process that is alive. */
  lemma EvictionSparesLiving(es: seq<Event>, ss: seq<State>, i: nat, pid: Pid)
    requires Run(es, ss) && i < |es| && es[i].EvictIfStale?
    requires pid in ss[i].inner && IsLive(ss[i], pid, ss[i].inner[pid].start)
    ensures pid in ss[i + 1].inner && ss[i + 1].inner[pid] == ss[i].inner[pid]
  {
    InvHolds(es, ss, i);
    assert ss[i + 1] == Step(ss[i], es[i]);
    assert TaskOk(ss[i], ss[i].tasks[es[i].tid]);
  }

  // ----- clearing someone else's mark ---------------------------------------------

  predicate Touches(e: Event, pid: Pid) {
    (e.Spawn? || e.Exit? || e.Setuid?) && e.pid == pid
  }

  /** The event makes `owner` the owner of the process under `pid`. */
  predicate Hands(e: Event, pid: Pid, owner: Uid) {
    e == Setuid(pid, owner) || (e.Spawn? && e.pid == pid && e.proc.owner == owner)
  }

  ghost predicate Untouched(es: seq<Event>, pid: Pid, lo: nat, hi: nat)
    requires hi <= |es|
  {
    forall i :: lo <= i < hi ==> !Touches(es[i], pid)
  }

  /** Strictly between `lo` and `hi` the PID went to a process of a user other than `uid`, by
      reuse or by a change of owner, and stayed so. */
  ghost predicate ChangedHands(es: seq<Event>, pid: Pid, uid: Uid, lo: nat, hi: nat)
    requires hi <= |es|
  {
    exists k, o :: lo < k < hi && Hands(es[k], pid, o) && o != uid && Untouched(es, pid, k + 1, hi)
  }

  /** The last hand-over decides who owns a PID now. */
  lemma {:induction false} OwnerStays(es: seq<Event>, ss: seq<State>, pid: Pid, lo: nat, hi: nat)
    requires Run(es, ss) && lo <= hi <= |es| && Untouched(es, pid, lo, hi)
    ensures pid in ss[hi].live <==> pid in ss[lo].live
    ensures pid in ss[lo].live ==> ss[hi].live[pid] == ss[lo].live[pid]
    decreases hi
  {
    if lo < hi {
      OwnerStays(es, ss, pid, lo, hi - 1);
      LiveAfter(ss[hi - 1], es[hi - 1], pid) by {
        assert Enabled(ss[hi - 1], es[hi - 1]);
      }
      assert ss[hi - 1 + 1] == Step(ss[hi - 1], es[hi - 1]);
      hide Step;
    }
  }

  lemma LiveAfter(s: State, e: Event, pid: Pid)
    requires Enabled(s, e)
    ensures !Touches(e, pid) ==> (pid in Step(s, e).live <==> pid in s.live)
    ensures !Touches(e, pid) && pid in s.live ==> Step(s, e).live[pid] == s.live[pid]
    ensures forall o :: Hands(e, pid, o) ==> pid in Step(s, e).live && Step(s, e).live[pid].owner == o
    ensures Touches(e, pid) && pid in Step(s, e).live ==> Hands(e, pid, Step(s, e).live[pid].owner)
  {
  }

  lemma {:induction false} LastHandOver(es: seq<Event>, ss: seq<State>, pid: Pid, lo: nat, hi: nat) returns (k: int)
    requires Run(es, ss) && lo <= hi <= |es| && pid in ss[hi].live
    ensures k == -1 ==> Untouched(es, pid, lo, hi)
    ensures k != -1 ==> lo <= k < hi && Hands(es[k], pid, ss[hi].live[pid].owner) && Untouched(es, pid, k + 1, hi)
    decreases hi
  {
    k := -1;
    if lo < hi {
      var s, e := ss[hi - 1], es[hi - 1];
      assert Enabled(s, e) && ss[hi - 1 + 1] == Step(s, e);
      LiveAfter(s, e, pid);
      hide Step, Enabled, Hands;
      if Touches(e, pid) {
        k := hi - 1;
      } else {
        k := LastHandOver(es, ss, pid, lo, hi - 1);
      }
    }
  }

  /** The owner read of a Low request that is about to evict. */
  ghost predicate LowRead(es: seq<Event>, ss: seq<State>, j: nat, t: Tid, uid: Uid, pid: Pid) {
    && j < |es| && j < |ss| && es[j].ReadOwner? && es[j].tid == t
    && t in ss[j].tasks && ss[j].tasks[t] == Asked(uid, pid, Low)
    && (es[j].owner == Found(uid) || es[j].owner.NotFound?)
  }

  lemma {:induction false} LowReadHappened(es: seq<Event>, ss: seq<State>, n: nat, t: Tid) returns (j: nat)
    requires Run(es, ss) && n < |ss| && t in ss[n].tasks && ss[n].tasks[t].Evicting?
    ensures j < n && SameCall(es, t, j, n) && LowRead(es, ss, j, t, ss[n].tasks[t].uid, ss[n].tasks[t].pid)
  {
    var s, e := ss[n - 1], es[n - 1];
    assert Enabled(s, e) && ss[n - 1 + 1] == Step(s, e);
    if e.ReadOwner? && e.tid == t {
      j := n - 1;
    } else {
      j := LowReadHappened(es, ss, n - 1, t);
    }
  }

  /** The entry under `pid` belongs to the process that lives there. */
  predicate LiveMark(s: State, pid: Pid) {
    pid in s.inner && IsLive(s, pid, s.inner[pid].start)
  }

  /** A Low request of a non-root caller clears whatever is under the PID. It clears the mark
      of a live process of another user exactly when the PID changed hands after the request
      read its owner. */
  lemma ClearsForeignMarkIff(es: seq<Event>, ss: seq<State>, i: nat) returns (a: nat, j: nat)
    requires Run(es, ss) && i < |es| && es[i].Evict? && ss[i].tasks[es[i].tid].Evicting?
    ensures var k := ss[i].tasks[es[i].tid];
            && a < j < i && SameCall(es, es[i].tid, a, i) && es[a] == Ask(es[i].tid, Asked(k.uid, k.pid, Low))
            && LowRead(es, ss, j, es[i].tid, k.uid, k.pid)
            && ss[i + 1].inner == ss[i].inner - {k.pid}
            && (LiveMark(ss[i], k.pid) ==>
                  (ss[i].live[k.pid].owner != k.uid <==> ChangedHands(es, k.pid, k.uid, j, i)))
  {
    var t := es[i].tid;
    var task := ss[i].tasks[t];
    assert Enabled(ss[i], es[i]) && ss[i + 1] == Step(ss[i], es[i]);
    a := AskHappened(es, ss, i, t);
    j := LowReadHappened(es, ss, i, t);
    if LiveMark(ss[i], task.pid) {
      OwnerOrHandOver(es, ss, j, i, t, task.uid, task.pid);
    }
  }

  lemma OwnerOrHandOver(es: seq<Event>, ss: seq<State>, j: nat, i: nat, t: Tid, uid: Uid, pid: Pid)
    requires Run(es, ss) && j < i <= |es| && pid in ss[i].live && LowRead(es, ss, j, t, uid, pid)
    ensures ss[i].live[pid].owner != uid <==> ChangedHands(es, pid, uid, j, i)
  {
    assert Enabled(ss[j], es[j]) && ss[j + 1] == Step(ss[j], es[j]);
    assert ss[j + 1].live == ss[j].live;
    var k := LastHandOver(es, ss, pid, j + 1, i);
    hide Step;
    if k == -1 {
      OwnerStays(es, ss, pid, j + 1, i);
      forall m, o | j < m < i ensures !Hands(es[m], pid, o) {
        assert !Touches(es[m], pid);
      }
    } else {
      forall m, o | j < m < i && Hands(es[m], pid, o) && Untouched(es, pid, m + 1, i)
        ensures o == ss[i].live[pid].owner
      {
        assert Touches(es[m], pid) && Touches(es[k], pid);
        assert m == k;
      }
    }
  }

  // ----- overwriting someone else's mark ------------------------------------------

  /** The start-time read of this call that its commit relies on. */
  ghost predicate CommitRead(es: seq<Event>, ss: seq<State>, j: nat, t: Tid, pid: Pid, start: Time) {
    j < |es| && j < |ss| && es[j] == ReadStart(t, Found(start)) && IsLive(ss[j], pid, start)
  }

  lemma {:induction false} CommitReadHappened(es: seq<Event>, ss: seq<State>, n: nat, t: Tid) returns (j: nat)
    requires Run(es, ss) && n < |ss| && t in ss[n].tasks
    requires ss[n].tasks[t].Cleared? || ss[n].tasks[t].RootReady?
    ensures j < n && SameCall(es, t, j, n)
    ensures CommitRead(es, ss, j, t, ss[n].tasks[t].pid, ss[n].tasks[t].start)
  {
    var s, e := ss[n - 1], es[n - 1];
    assert Enabled(s, e) && ss[n - 1 + 1] == Step(s, e);
    if e.ReadStart? && e.tid == t {
      j := n - 1;
    } else {
      j := CommitReadHappened(es, ss, n - 1, t);
    }
  }

  /** The PID was given to a new process strictly between `lo` and `hi`. */
  ghost predicate Respawned(es: seq<Event>, pid: Pid, lo: nat, hi: nat)
    requires hi <= |es|
  {
    exists k :: lo < k < hi && es[k].Spawn? && es[k].pid == pid
  }

  lemma {:induction false} GoneStays(es: seq<Event>, ss: seq<State>, pid: Pid, start: Time, lo: nat, hi: nat)
    requires Run(es, ss) && lo <= hi <= |es| && Gone(ss[lo], pid, start)
    ensures Gone(ss[hi], pid, start)
    decreases hi
  {
    hide Gone, Step, Enabled;
    if lo < hi {
      GoneStays(es, ss, pid, start, lo, hi - 1);
      assert Enabled(ss[hi - 1], es[hi - 1]) && ss[hi - 1 + 1] == Step(ss[hi - 1], es[hi - 1]);
      GoneForever(ss[hi - 1], es[hi - 1], pid, start);
    }
  }

  /** Without a new process under the PID, whoever lives there is the one that did before. */
  lemma {:induction false} SameIncarnation(es: seq<Event>, ss: seq<State>, pid: Pid, lo: nat, hi: nat)
    requires Run(es, ss) && lo <= hi <= |es| && pid in ss[hi].live
    requires forall k :: lo <= k < hi ==> !(es[k].Spawn? && es[k].pid == pid)
    ensures pid in ss[lo].live && ss[lo].live[pid].start == ss[hi].live[pid].start
    decreases hi
  {
    if lo < hi {
      var s, e := ss[hi - 1], es[hi - 1];
      assert Enabled(s, e) && ss[hi - 1 + 1] == Step(s, e);
      assert pid in s.live && s.live[pid].start == ss[hi].live[pid].start;
      SameIncarnation(es, ss, pid, lo, hi - 1);
    }
  }

  lemma RespawnedIffOther(es: seq<Event>, ss: seq<State>, t: Tid, pid: Pid, start: Time, j: nat, i: nat)
    requires Run(es, ss) && j < i <= |es| && CommitRead(es, ss, j, t, pid, start) && pid in ss[i].live
    ensures ss[i].live[pid].start != start <==> Respawned(es, pid, j, i)
  {
    assert Enabled(ss[j], es[j]) && ss[j + 1] == Step(ss[j], es[j]);
    InvHolds(es, ss, j);
    if Respawned(es, pid, j, i) {
      var k :| j < k < i && es[k].Spawn? && es[k].pid == pid;
      UsedStays(es, ss, pid, start, j, k);
      assert Enabled(ss[k], es[k]);
      assert Gone(ss[k], pid, start);
      GoneStays(es, ss, pid, start, k, i);
    } else {
      SameIncarnation(es, ss, pid, j + 1, i);
    }
  }

  lemma {:induction false} UsedStays(es: seq<Event>, ss: seq<State>, pid: Pid, start: Time, lo: nat, hi: nat)
    requires Run(es, ss) && lo <= hi <= |es| && (pid, start) in ss[lo].used
    ensures (pid, start) in ss[hi].used
    decreases hi
  {
    if lo < hi {
      UsedStays(es, ss, pid, start, lo, hi - 1);
      assert Enabled(ss[hi - 1], es[hi - 1]) && ss[hi - 1 + 1] == Step(ss[hi - 1], es[hi - 1]);
    }
  }

  /** A commit, root or not, replaces whatever is under the PID. It destroys the mark of a live
      process exactly when the PID was respawned after the start-time read it relies on. */
  lemma CommitDestroysMarkIff(es: seq<Event>, ss: seq<State>, i: nat) returns (j: nat)
    requires Run(es, ss) && i < |es| && es[i].Commit? && LiveMark(ss[i], ss[i].tasks[es[i].tid].pid)
    ensures var k := ss[i].tasks[es[i].tid];
            && j < i && SameCall(es, es[i].tid, j, i) && CommitRead(es, ss, j, es[i].tid, k.pid, k.start)
            && (!LiveMark(ss[i + 1], k.pid) <==> Respawned(es, k.pid, j, i))
  {
    var t := es[i].tid;
    assert Enabled(ss[i], es[i]) && ss[i + 1] == Step(ss[i], es[i]);
    var k := ss[i].tasks[t];
    j := CommitReadHappened(es, ss, i, t);
    RespawnedIffOther(es, ss, t, k.pid, k.start, j, i);
    CommitIsHigh(es, ss, i, t);
  }

  /** Only levels above Low reach a commit. */
  lemma {:induction false} CommitIsHigh(es: seq<Event>, ss: seq<State>, n: nat, t: Tid)
    requires Run(es, ss) && n < |ss| && t in ss[n].tasks
    ensures var k := ss[n].tasks[t];
            k.Started? || k.Owned? || k.Cleared? || k.RootReady? ==> !k.level.Low?
  {
    if n > 0 {
      var s, e := ss[n - 1], es[n - 1];
      assert Enabled(s, e) && ss[n - 1 + 1] == Step(s, e);
      if t in s.tasks {
        CommitIsHigh(es, ss, n - 1, t);
      }
    }
  }

  lemma Extend(es: seq<Event>, ss: seq<State>, e: Event, s: State) returns (es': seq<Event>, ss': seq<State>)
    requires Run(es, ss) && |ss| == |es| + 1 && Enabled(ss[|es|], e) && s == Step(ss[|es|], e)
    ensures Run(es', ss') && es' == es + [e] && ss' == ss + [s]
  {
    es', ss' := es + [e], ss + [s];
  }

  lemma MarkedRun() returns (es: seq<Event>, ss: seq<State>)
    ensures Run(es, ss) && |es| == 4 && |ss| == 5
    ensures ss[4] == State(map[5 := Proc(10, 1000)], {(5, 10)}, map[5 := Entry(Critical, 10)], map[])
  {
    var used, live := {(5, 10)}, map[5 := Proc(10, 1000)];
    es, ss := Extend([], [BOOT], Spawn(5, Proc(10, 1000)), State(live, used, map[], map[]));
    es, ss := Extend(es, ss, Ask(1, RootAsked(5, Critical)),
                     State(live, used, map[], map[1 := RootAsked(5, Critical)]));
    es, ss := Extend(es, ss, ReadStart(1, Found(10)), State(live, used, map[], map[1 := RootReady(5, Critical, 10)]));
    es, ss := Extend(es, ss, Commit(1), State(live, used, map[5 := Entry(Critical, 10)], map[]));
  }

  /** An unreadable /proc keeps the stored level even for a recycled PID: the answer is
      Critical for process 5 started at 20, but the mark was for the one started at 10. */
  lemma UnreadableKeepsStaleLevel() returns (es: seq<Event>, ss: seq<State>)
    ensures Run(es, ss) && |es| == 8 && es[7] == ReadStart(2, Error)
    ensures 2 in ss[7].tasks && ss[7].tasks[2].Looking? && Answer(ss[7].tasks[2].entry, Error) == Critical
    ensures IsLive(ss[7], ss[7].tasks[2].pid, 20) && ss[7].tasks[2].entry.start == 10
  {
    var used, live, mark := {(5, 10), (5, 20)}, map[5 := Proc(20, 1001)], map[5 := Entry(Critical, 10)];
    es, ss := MarkedRun();
    hide Run;
    es, ss := Extend(es, ss, Exit(5), State(map[], {(5, 10)}, mark, map[]));
    es, ss := Extend(es, ss, Spawn(5, Proc(20, 1001)), State(live, used, mark, map[]));
    es, ss := Extend(es, ss, Lookup(2, 5), State(live, used, mark, map[2 := Looking(5, Entry(Critical, 10))]));
    es, ss := Extend(es, ss, ReadStart(2, Error), State(live, used, mark, map[]));
  }

  /** A request by user 1000 reads its own process, the PID is reused by a process of user
      2000 which is marked, and the eviction takes that mark. */
  lemma ForeignMarkCleared() returns (es: seq<Event>, ss: seq<State>)
    ensures Run(es, ss) && |es| == 9 && |ss| == 10 && es[8] == Evict(1)
    ensures 1 in ss[8].tasks && ss[8].tasks[1] == Evicting(1000, 5)
    ensures LiveMark(ss[8], 5) && ss[8].live[5].owner == 2000 && 5 !in ss[9].inner
  {
    var used, live, mine := {(5, 10), (5, 20)}, map[5 := Proc(20, 2000)], Evicting(1000, 5);
    var mark := map[5 := Entry(Critical, 20)];
    es, ss := OwnProcessRead();
    hide Run;
    es, ss := Extend(es, ss, Ask(2, RootAsked(5, Critical)),
                     State(live, used, map[], map[1 := mine, 2 := RootAsked(5, Critical)]));
    es, ss := Extend(es, ss, ReadStart(2, Found(20)),
                     State(live, used, map[], map[1 := mine, 2 := RootReady(5, Critical, 20)]));
    es, ss := Extend(es, ss, Commit(2), State(live, used, mark, map[1 := mine]));
    es, ss := Extend(es, ss, Evict(1), State(live, used, map[], map[]));
  }

  lemma OwnProcessRead() returns (es: seq<Event>, ss: seq<State>)
    ensures Run(es, ss) && |es| == 5 && |ss| == 6
    ensures ss[5] == State(map[5 := Proc(20, 2000)], {(5, 10), (5, 20)}, map[], map[1 := Evicting(1000, 5)])
  {
    var used, live, ask := {(5, 10)}, map[5 := Proc(10, 1000)], Asked(1000, 5, Low);
    var mine := map[1 := Evicting(1000, 5)];
    es, ss := Extend([], [BOOT], Spawn(5, Proc(10, 1000)), State(live, used, map[], map[]));
    hide Run;
    es, ss := Extend(es, ss, Ask(1, ask), State(live, used, map[], map[1 := ask]));
    es, ss := Extend(es, ss, ReadOwner(1, Found(1000)), State(live, used, map[], mine));
    es, ss := Extend(es, ss, Exit(5), State(map[], used, map[], mine));
    es, ss := Extend(es, ss, Spawn(5, Proc(20, 2000)),
                     State(map[5 := Proc(20, 2000)], {(5, 10), (5, 20)}, map[], mine));
  }

  /** User 1000 passes the gate for its process, the PID goes to a process of user 2000 that
      root marks Critical, and then the first commit replaces that mark by a stale one. */
  lemma MarkOverwritten() returns (es: seq<Event>, ss: seq<State>)
    ensures Run(es, ss) && |es| == 11 && |ss| == 12 && es[10] == Commit(1)
    ensures LiveMark(ss[10], 5) && ss[10].live[5].owner == 2000 && ss[10].inner[5].level == Critical
    ensures 1 in ss[10].tasks && ss[10].tasks[1].Cleared? && ss[10].tasks[1].uid == 1000
    ensures !LiveMark(ss[11], 5)
  {
    var used, live, mine := {(5, 10), (5, 20)}, map[5 := Proc(20, 2000)], Cleared(1000, 5, High, 10, 10);
    es, ss := GatePassed();
    hide Run;
    es, ss := Extend(es, ss, Ask(2, RootAsked(5, Critical)),
                     State(live, used, map[], map[1 := mine, 2 := RootAsked(5, Critical)]));
    es, ss := Extend(es, ss, ReadStart(2, Found(20)),
                     State(live, used, map[], map[1 := mine, 2 := RootReady(5, Critical, 20)]));
    es, ss := Extend(es, ss, Commit(2), State(live, used, map[5 := Entry(Critical, 20)], map[1 := mine]));
    es, ss := Extend(es, ss, Commit(1), State(live, used, map[5 := Entry(High, 10)], map[]));
  }

  lemma GatePassed() returns (es: seq<Event>, ss: seq<State>)
    ensures Run(es, ss) && |es| == 7 && |ss| == 8
    ensures ss[7] == State(map[5 := Proc(20, 2000)], {(5, 10), (5, 20)}, map[],
                           map[1 := Cleared(1000, 5, High, 10, 10)])
  {
    var used, cleared := {(5, 10)}, map[1 := Cleared(1000, 5, High, 10, 10)];
    es, ss := GateReads();
    hide Run;
    es, ss := Extend(es, ss, Exit(5), State(map[], used, map[], cleared));
    es, ss := Extend(es, ss, Spawn(5, Proc(20, 2000)),
                     State(map[5 := Proc(20, 2000)], {(5, 10), (5, 20)}, map[], cleared));
  }

  lemma GateReads() returns (es: seq<Event>, ss: seq<State>)
    ensures Run(es, ss) && |es| == 5 && |ss| == 6
    ensures ss[5] == State(map[5 := Proc(10, 1000)], {(5, 10)}, map[], map[1 := Cleared(1000, 5, High, 10, 10)])
  {
    var used, live := {(5, 10)}, map[5 := Proc(10, 1000)];
    var a, b, c := Asked(1000, 5, High), Started(1000, 5, High, 10), Owned(1000, 5, High, 10, 10);
    es, ss := Extend([], [BOOT], Spawn(5, Proc(10, 1000)), State(live, used, map[], map[]));
    hide Run;
    es, ss := Extend(es, ss, Ask(1, a), State(live, used, map[], map[1 := a]));
    es, ss := Extend(es, ss, ReadStart(1, Found(10)), State(live, used, map[], map[1 := b]));
    es, ss := Extend(es, ss, ReadOwner(1, Found(1000)), State(live, used, map[], map[1 := c]));
    es, ss := Extend(es, ss, ReadStart(1, Found(10)),
                     State(live, used, map[], map[1 := Cleared(1000, 5, High, 10, 10)]));
  }
}
