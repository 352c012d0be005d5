/** The per-user write locks: a table of shared mutexes from which idle entries are pruned
    while callers come and go. */
module WriteLocks {
  import opened Sets

  type Uid = nat
  type LockId = nat
  type Tid = nat

  const SOFT_CAP := 1024

  /** A caller's clone of a mutex, and whether the caller is inside its critical section. */
  datatype Handle = Handle(uid: Uid, lock: LockId, inside: bool)

  /** `next` is the identity the next new mutex gets. */
  datatype State = State(table: map<Uid, LockId>, next: LockId, callers: map<Tid, Handle>)

  datatype Event = Acquire(tid: Tid, uid: Uid) | Lock(tid: Tid) | Unlock(tid: Tid) | Drop(tid: Tid)

  const START := State(map[], 0, map[])

  /** Mutexes with a strong reference besides the table's own. */
  function InUse(callers: map<Tid, Handle>): set<LockId> {
    set t | t in callers :: callers[t].lock
  }

  /** Over the soft cap, only mutexes somebody holds are kept. */
  function Prune(table: map<Uid, LockId>, live: set<LockId>): (kept: map<Uid, LockId>)
    ensures forall u :: u in kept ==> u in table && kept[u] == table[u]
    ensures forall u :: u in table && table[u] in live ==> u in kept
    ensures |table| > SOFT_CAP ==> forall u :: u in kept ==> table[u] in live
  {
    if |table| > SOFT_CAP then map u | u in table && table[u] in live :: table[u] else table
  }

  /** The table after an acquire of `uid` and the mutex handed out. */
  function Obtain(table: map<Uid, LockId>, next: LockId, live: set<LockId>, uid: Uid): (map<Uid, LockId>, LockId) {
    var kept := Prune(table, live);
    if uid in kept then (kept, kept[uid]) else (kept[uid := next], next)
  }

  predicate Enabled(s: State, e: Event) {
    match e
    case Acquire(t, _) => t !in s.callers
    case Lock(t) => t in s.callers && !s.callers[t].inside &&
                    forall o :: o in s.callers && s.callers[o].inside ==> s.callers[o].lock != s.callers[t].lock
    case Unlock(t) => t in s.callers && s.callers[t].inside
    case Drop(t) => t in s.callers && !s.callers[t].inside
  }

  function Step(s: State, e: Event): State
    requires Enabled(s, e)
  {
    match e
    case Acquire(t, uid) =>
      var (table, l) := Obtain(s.table, s.next, InUse(s.callers), uid);
      State(table, if l == s.next then s.next + 1 else s.next, s.callers[t := Handle(uid, l, false)])
    case Lock(t) => s.(callers := s.callers[t := s.callers[t].(inside := true)])
    case Unlock(t) => s.(callers := s.callers[t := s.callers[t].(inside := false)])
    case Drop(t) => s.(callers := s.callers - {t})
  }

  /** The table in place, as `acquire_write_lock` works on it. */
  class LockTable {
    var table: map<Uid, LockId>
    var next: LockId

    constructor ()
      ensures table == map[] && next == 0
    {
      table, next := map[], 0;
    }

    method AcquireWriteLock(uid: Uid, live: set<LockId>) returns (l: LockId)
      requires forall u :: u in table ==> table[u] < next
      modifies this
      ensures (table, l) == Obtain(old(table), old(next), live, uid)
      ensures next == if l == old(next) then old(next) + 1 else old(next)
    {
      if |table| > SOFT_CAP {
        table := map u | u in table && table[u] in live :: table[u];
      }
      if uid !in table {
        table := table[uid := next];
        next := next + 1;
      }
      l := table[uid];
    }
  }

  // ----- invariants -------------------------------------------------------------

  /** No mutex identity is shared or ahead of the counter. */
  ghost predicate Tidy(s: State) {
    && (forall u :: u in s.table ==> s.table[u] < s.next)
    && forall u, v :: u in s.table && v in s.table && s.table[u] == s.table[v] ==> u == v
  }

  /** Every live handle is a clone of the mutex its user has in the table now. */
  ghost predicate Current(s: State) {
    forall t :: t in s.callers ==>
      s.callers[t].uid in s.table && s.table[s.callers[t].uid] == s.callers[t].lock
  }

  ghost predicate Exclusive(s: State) {
    forall t, o :: t in s.callers && o in s.callers && s.callers[t].inside && s.callers[o].inside ==>
      s.callers[t].lock == s.callers[o].lock ==> t == o
  }

  ghost predicate Inv(s: State) {
    Tidy(s) && Current(s) && Exclusive(s)
  }

  lemma AcquireKeepsInv(s: State, t: Tid, uid: Uid)
    requires Inv(s) && t !in s.callers
    ensures Inv(Step(s, Acquire(t, uid)))
  {
    hide Exclusive;
    var live := InUse(s.callers);
    var kept := Prune(s.table, live);
    hide Prune;
    forall o | o in s.callers ensures s.callers[o].uid in kept && kept[s.callers[o].uid] == s.callers[o].lock {
      assert s.callers[o].lock in live;
    }
    assert Exclusive(Step(s, Acquire(t, uid))) by { ExclusiveIdle(s, t, uid); }
  }

  lemma ExclusiveIdle(s: State, t: Tid, uid: Uid)
    requires Exclusive(s) && t !in s.callers
    ensures Exclusive(Step(s, Acquire(t, uid)))
  {
    hide Obtain;
  }

  lemma StepKeepsInv(s: State, e: Event)
    requires Inv(s) && Enabled(s, e)
    ensures Inv(Step(s, e))
  {
    hide Obtain, InUse;
    if e.Acquire? { AcquireKeepsInv(s, e.tid, e.uid); }
  }

  // ----- whole runs -------------------------------------------------------------

  ghost predicate Run(es: seq<Event>, ss: seq<State>) {
    && |ss| == |es| + 1 && ss[0] == START
    && forall i {:trigger es[i]} :: 0 <= i < |es| ==> Enabled(ss[i], es[i]) && ss[i + 1] == Step(ss[i], es[i])
  }

  lemma {:induction false} InvHolds(es: seq<Event>, ss: seq<State>, n: nat)
    requires Run(es, ss) && n < |ss|
    ensures Inv(ss[n])
  {
    if n > 0 {
      InvHolds(es, ss, n - 1);
      assert ss[n - 1 + 1] == Step(ss[n - 1], es[n - 1]);
      StepKeepsInv(ss[n - 1], es[n - 1]);
    }
  }

  /** In no run are two callers inside the same user's critical section. */
  lemma MutualExclusion(es: seq<Event>, ss: seq<State>, n: nat, t: Tid, o: Tid)
    requires Run(es, ss) && n < |ss|
    requires t in ss[n].callers && o in ss[n].callers && ss[n].callers[t].inside && ss[n].callers[o].inside
    requires ss[n].callers[t].uid == ss[n].callers[o].uid
    ensures t == o
  {
    InvHolds(es, ss, n);
  }

  /** The users with live handles, and the pruned table is no larger than that. */
  lemma PrunedSize(s: State)
    requires Inv(s) && |s.table| > SOFT_CAP
    ensures |Prune(s.table, InUse(s.callers))| <= |s.callers|
  {
    var kept := Prune(s.table, InUse(s.callers));
    var users := set t | t in s.callers :: s.callers[t].uid;
    forall u | u in kept ensures u in users {
      var t :| t in s.callers && s.callers[t].lock == s.table[u];
      assert s.callers[t].uid == u;
    }
    UsersSize(s.callers, s.callers.Keys);
    SubsetSize(kept.Keys, users);
  }

  lemma {:induction false} UsersSize(callers: map<Tid, Handle>, ts: set<Tid>)
    requires ts <= callers.Keys
    ensures |set t | t in ts :: callers[t].uid| <= |ts|
    decreases |ts|
  {
    if ts != {} {
      var t :| t in ts;
      UsersSize(callers, ts - {t});
      assert (set x | x in ts :: callers[x].uid) == (set x | x in ts - {t} :: callers[x].uid) + {callers[t].uid};
    }
  }

  lemma AcquireSize(s: State, t: Tid, uid: Uid)
    requires Inv(s) && t !in s.callers
    ensures var s' := Step(s, Acquire(t, uid));
            && |s'.callers| == |s.callers| + 1
            && |s'.table| <= if |s.table| > SOFT_CAP then |s.callers| + 1 else |s.table| + 1
  {
    var kept := Prune(s.table, InUse(s.callers));
    var (table, l) := Obtain(s.table, s.next, InUse(s.callers), uid);
    if |s.table| > SOFT_CAP { PrunedSize(s); }
    hide Inv;
    MapSize(kept, uid, s.next);
    MapSize(s.callers, t, Handle(uid, l, false));
  }

  lemma MapSize<V>(m: map<nat, V>, k: nat, v: V)
    ensures |m[k := v]| == if k in m then |m| else |m| + 1
  {
    assert m[k := v].Keys == m.Keys + {k};
  }

  /** A step leaves the table no larger than it was, than the soft cap plus one or than the
      number of live handles. */
  ghost predicate SizeKept(s: State, s': State) {
    |s'.table| <= |s.table| || |s'.table| <= SOFT_CAP + 1 || |s'.table| <= |s'.callers|
  }

  lemma StepSize(s: State, e: Event)
    requires Inv(s) && Enabled(s, e)
    ensures SizeKept(s, Step(s, e))
  {
    if e.Acquire? {
      hide *;
      AcquireSizeKept(s, e.tid, e.uid);
    }
  }

  lemma AcquireSizeKept(s: State, t: Tid, uid: Uid)
    requires Inv(s) && Enabled(s, Acquire(t, uid))
    ensures SizeKept(s, Step(s, Acquire(t, uid)))
  {
    AcquireSize(s, t, uid);
    hide Inv, Step, Enabled;
  }

  /** While never more than `peak` handles are live, the table stays within the larger of
      `peak` and the soft cap plus one. */
  lemma {:induction false} TableBounded(es: seq<Event>, ss: seq<State>, n: nat, peak: nat)
    requires Run(es, ss) && n < |ss|
    requires forall i :: 0 <= i < |ss| ==> |ss[i].callers| <= peak
    ensures |ss[n].table| <= if peak > 1025 then peak else 1025
  {
    if n > 0 {
      hide Inv, Step, Enabled;
      TableBounded(es, ss, n - 1, peak);
      InvHolds(es, ss, n - 1);
      assert Enabled(ss[n - 1], es[n - 1]) && ss[n - 1 + 1] == Step(ss[n - 1], es[n - 1]);
      StepSize(ss[n - 1], es[n - 1]);
    }
  }
}
