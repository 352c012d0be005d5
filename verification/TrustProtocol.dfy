/** Session adds, direct trust adds and the phases of `session_write`, interleaved in any
    order over the write locks, with I/O that can fail at every step. Nothing here clears a
    session. */
module TrustProtocol {
  import L = WriteLocks
  import opened Sets
  import opened TrustFiles
  import opened SessionWrite

  type Uid = L.Uid
  type Tid = L.Tid

  /** What a caller inside its critical section has in hand. */
  datatype Job =
    | Adding(hash: string, read: set<string>)                // persistent_add_trust, file read
    | Snapshot(session: set<string>)                         // session_write, session copied
    | Ready(text: set<string>, persisted: set<string>)       // file read, new contents computed
    | Stored(persisted: set<string>)                         // file written, cleanup to come

  datatype State = State(
    locks: L.State,
    session: map<Uid, set<string>>,
    file: map<Uid, set<string>>,
    jobs: map<Tid, Job>)

  /** The daemon starts over whatever files are there. */
  ghost predicate Initial(s: State) {
    s.locks == L.START && s.session == map[] && s.jobs == map[]
  }

  datatype Event =
    | Locking(e: L.Event)
    | SessionAdd(uid: Uid, hash: string)
    | AddReads(tid: Tid, hash: string)
    | AddWrites(tid: Tid)
    | Copies(tid: Tid)
    | Reads(tid: Tid, persisted: set<string>)
    | Writes(tid: Tid)
    | CleansUp(tid: Tid)
    | Fails(tid: Tid)

  function Of(m: map<Uid, set<string>>, u: Uid): set<string> {
    if u in m then m[u] else {}
  }

  predicate Inside(s: State, t: Tid) {
    t in s.locks.callers && s.locks.callers[t].inside
  }

  function UserOf(s: State, t: Tid): Uid
    requires Inside(s, t)
  {
    s.locks.callers[t].uid
  }

  /** `session_add_trust` accepts the hash. */
  predicate Accepts(s: State, uid: Uid, hash: string) {
    ValidTrustHash(hash) && (|Of(s.session, uid)| < SESSION_PER_KIND_CAP || hash in Of(s.session, uid))
  }

  /** What the loop of `session_write` may store: see `SessionWrite.PersistTrust`. */
  ghost predicate MayPersist(session: set<string>, file: set<string>, persisted: set<string>) {
    && persisted <= ValidHashes(session) && ValidHashes(session) * file <= persisted
    && |file + persisted| <= Max(PERSISTENT_TRUST_CAP, |file|)
  }

  /** The loop makes one of these choices. */
  method Choose(session: set<string>, file: set<string>) returns (persisted: set<string>)
    ensures MayPersist(session, file, persisted)
  {
    hide ValidHashes, Max;
    var existing, invalid, blocked, added;
    existing, persisted, invalid, blocked, added := PersistTrust(session, file);
  }

  ghost predicate Enabled(s: State, e: Event) {
    match e
    case Locking(l) => L.Enabled(s.locks, l) && l.tid !in s.jobs
    case SessionAdd(_, _) => true
    case AddReads(t, h) => Inside(s, t) && t !in s.jobs && ValidTrustHash(h)
    case AddWrites(t) => Inside(s, t) && t in s.jobs && s.jobs[t].Adding?
    case Copies(t) => Inside(s, t) && t !in s.jobs
    case Reads(t, p) => Inside(s, t) && t in s.jobs && s.jobs[t].Snapshot? &&
                        MayPersist(s.jobs[t].session, Of(s.file, UserOf(s, t)), p)
    case Writes(t) => Inside(s, t) && t in s.jobs && s.jobs[t].Ready?
    case CleansUp(t) => Inside(s, t) && t in s.jobs && s.jobs[t].Stored?
    case Fails(t) => t in s.jobs
  }

  ghost function Step(s: State, e: Event): State
    requires Enabled(s, e)
  {
    match e
    case Locking(l) => s.(locks := L.Step(s.locks, l))
    case SessionAdd(u, h) => if Accepts(s, u, h) then s.(session := s.session[u := Of(s.session, u) + {h}]) else s
    case AddReads(t, h) => s.(jobs := s.jobs[t := Adding(h, Of(s.file, UserOf(s, t)))])
    case AddWrites(t) =>
      var j, u := s.jobs[t], UserOf(s, t);
      var kept := j.hash in j.read || |j.read| >= PERSISTENT_TRUST_CAP;
      State(s.locks, s.session, if kept then s.file else s.file[u := j.read + {j.hash}], s.jobs - {t})
    case Copies(t) => s.(jobs := s.jobs[t := Snapshot(Of(s.session, UserOf(s, t)))])
    case Reads(t, p) => s.(jobs := s.jobs[t := Ready(Of(s.file, UserOf(s, t)) + p, p)])
    case Writes(t) =>
      State(s.locks, s.session, s.file[UserOf(s, t) := s.jobs[t].text], s.jobs[t := Stored(s.jobs[t].persisted)])
    case CleansUp(t) =>
      var u := UserOf(s, t);
      State(s.locks, s.session[u := Of(s.session, u) - s.jobs[t].persisted], s.file, s.jobs - {t})
    case Fails(t) => s.(jobs := s.jobs - {t})
  }

  // ----- invariant --------------------------------------------------------------

  /** What a caller has in hand still agrees with its user's file. */
  ghost predicate Agrees(j: Job, file: set<string>) {
    match j
    case Adding(_, read) => read == file
    case Snapshot(_) => true
    case Ready(text, persisted) => text == file + persisted && |text| <= Max(PERSISTENT_TRUST_CAP, |file|)
    case Stored(persisted) => persisted <= file
  }

  ghost predicate Inv(s: State) {
    && L.Inv(s.locks)
    && forall t :: t in s.jobs ==> Inside(s, t) && Agrees(s.jobs[t], Of(s.file, UserOf(s, t)))
  }

  /** Two callers with work in hand work for different users. */
  lemma OneWriter(s: State, t: Tid, o: Tid)
    requires Inv(s) && Inside(s, t) && Inside(s, o) && t != o
    ensures UserOf(s, t) != UserOf(s, o)
  {
  }

  /** No step takes a hash out of a file, and a session loses only what its file holds. */
  lemma StepLosesNothing(s: State, e: Event, u: Uid)
    requires Inv(s) && Enabled(s, e)
    ensures Of(s.file, u) <= Of(Step(s, e).file, u)
    ensures Of(s.session, u) <= Of(Step(s, e).session, u) + Of(Step(s, e).file, u)
  {
    if e.AddWrites? || e.Writes? || e.CleansUp? {
      JobAgrees(s, e.tid);
    }
    hide Inv, L.Step, L.Enabled, MayPersist, ValidTrustHash, Max;
  }

  lemma JobAgrees(s: State, t: Tid)
    requires Inv(s) && t in s.jobs
    ensures Inside(s, t) && Agrees(s.jobs[t], Of(s.file, UserOf(s, t)))
  {
  }

  /** And what is to be stored is stored: a direct add unless the file is full, a session write
      all it persists; a cleanup takes exactly that out of the session. */
  lemma StepStores(s: State, e: Event)
    requires Inv(s) && Enabled(s, e)
    ensures e.AddWrites? ==>
              var u, file := UserOf(s, e.tid), Of(s.file, UserOf(s, e.tid));
              Of(Step(s, e).file, u) == if |file| < PERSISTENT_TRUST_CAP then file + {s.jobs[e.tid].hash} else file
    ensures e.Writes? ==>
              var u := UserOf(s, e.tid);
              Of(Step(s, e).file, u) == Of(s.file, u) + s.jobs[e.tid].persisted
    ensures e.CleansUp? ==>
              var u := UserOf(s, e.tid);
              Of(Step(s, e).session, u) == Of(s.session, u) - s.jobs[e.tid].persisted
    ensures e.SessionAdd? && Accepts(s, e.uid, e.hash) ==> e.hash in Of(Step(s, e).session, e.uid)
  {
    if e.AddWrites? || e.Writes? {
      JobAgrees(s, e.tid);
    }
    hide Inv, L.Step, L.Enabled, MayPersist, ValidTrustHash, Max;
    if e.AddWrites? {
      var file, h := Of(s.file, UserOf(s, e.tid)), s.jobs[e.tid].hash;
      assert h in file ==> file + {h} == file;
    }
  }

  lemma LockingKeepsOthers(s: State, l: L.Event, t: Tid)
    requires L.Enabled(s.locks, l) && t != l.tid && Inside(s, t)
    ensures Inside(s.(locks := L.Step(s.locks, l)), t)
    ensures UserOf(s.(locks := L.Step(s.locks, l)), t) == UserOf(s, t)
  {
    hide L.Obtain;
  }

  lemma StepKeepsInv(s: State, e: Event)
    requires Inv(s) && Enabled(s, e)
    ensures Inv(Step(s, e))
  {
    if e.Locking? {
      LockingKeepsInv(s, e.e);
    } else if !e.SessionAdd? {
      WorkKeepsInv(s, e);
    }
    hide L.Inv, L.Step, L.Enabled, MayPersist, Agrees;
  }

  lemma LockingKeepsInv(s: State, l: L.Event)
    requires Inv(s) && Enabled(s, Locking(l))
    ensures Inv(Step(s, Locking(l)))
  {
    L.StepKeepsInv(s.locks, l);
    hide L.Inv, L.Step, L.Enabled, Agrees;
    var s' := s.(locks := L.Step(s.locks, l));
    forall t | t in s'.jobs ensures Inside(s', t) && Agrees(s'.jobs[t], Of(s'.file, UserOf(s', t))) {
      LockingKeepsOthers(s, l, t);
    }
  }

  lemma WorkKeepsInv(s: State, e: Event)
    requires Inv(s) && Enabled(s, e) && !e.Locking? && !e.SessionAdd?
    ensures Inv(Step(s, e))
  {
    var s' := Step(s, e);
    forall t | t in s'.jobs ensures Inside(s', t) && Agrees(s'.jobs[t], Of(s'.file, UserOf(s', t))) {
      hide *;
      if t == e.tid {
        OwnJobAgrees(s, e);
      } else {
        OtherJobAgrees(s, e, t);
      }
    }
    hide L.Inv, L.Step, L.Enabled, MayPersist, Agrees;
  }

  lemma OwnJobAgrees(s: State, e: Event)
    requires Inv(s) && Enabled(s, e) && !e.Locking? && !e.SessionAdd? && e.tid in Step(s, e).jobs
    ensures var s' := Step(s, e);
            Inside(s', e.tid) && Agrees(s'.jobs[e.tid], Of(s'.file, UserOf(s', e.tid)))
  {
    if e.tid in s.jobs {
      JobAgrees(s, e.tid);
    }
    hide Inv, L.Step, L.Enabled, ValidHashes, ValidTrustHash, Max;
  }

  lemma OtherJobAgrees(s: State, e: Event, t: Tid)
    requires Inv(s) && Enabled(s, e) && !e.Locking? && !e.SessionAdd? && t != e.tid && t in Step(s, e).jobs
    ensures var s' := Step(s, e);
            Inside(s', t) && Agrees(s'.jobs[t], Of(s'.file, UserOf(s', t)))
  {
    hide L.Step, L.Enabled, MayPersist, ValidTrustHash, Agrees;
    assert t in s.jobs;
    JobAgrees(s, t);
    if Inside(s, e.tid) {
      OneWriter(s, t, e.tid);
    }
    hide Inv;
  }

  // ----- whole runs -------------------------------------------------------------

  ghost predicate Run(es: seq<Event>, ss: seq<State>) {
    && |ss| == |es| + 1 && Initial(ss[0])
    && forall i {:trigger es[i]} :: 0 <= i < |es| ==> Enabled(ss[i], es[i]) && ss[i + 1] == Step(ss[i], es[i])
  }

  lemma {:induction false} InvHolds(es: seq<Event>, ss: seq<State>, n: nat)
    requires Run(es, ss) && n < |ss|
    ensures Inv(ss[n])
  {
    if n > 0 {
      InvHolds(es, ss, n - 1);
      StepKeepsInv(ss[n - 1], es[n - 1]);
      assert ss[n - 1 + 1] == Step(ss[n - 1], es[n - 1]);
    }
  }

  lemma {:induction false} StaysSomewhere(es: seq<Event>, ss: seq<State>, uid: Uid, hash: string, m: nat, n: nat)
    requires Run(es, ss) && m <= n < |ss|
    requires hash in Of(ss[m].session, uid) || hash in Of(ss[m].file, uid)
    ensures hash in Of(ss[n].session, uid) || hash in Of(ss[n].file, uid)
    decreases n
  {
    if m < n {
      StaysSomewhere(es, ss, uid, hash, m, n - 1);
      InvHolds(es, ss, n - 1);
      StepLosesNothing(ss[n - 1], es[n - 1], uid);
      assert ss[n - 1 + 1] == Step(ss[n - 1], es[n - 1]);
    }
  }

  /** A hash accepted into a session is from then on in the session or in the trust file. */
  lemma AcceptedHashNeverLost(es: seq<Event>, ss: seq<State>, i: nat, n: nat)
    requires Run(es, ss) && i < |es| && i < n < |ss|
    requires es[i].SessionAdd? && Accepts(ss[i], es[i].uid, es[i].hash)
    ensures es[i].hash in Of(ss[n].session, es[i].uid) || es[i].hash in Of(ss[n].file, es[i].uid)
  {
    assert ss[i + 1] == Step(ss[i], es[i]);
    StaysSomewhere(es, ss, es[i].uid, es[i].hash, i + 1, n);
  }

  /** A hash once stored by either path stays stored. */
  lemma {:induction false} StoredHashNeverLost(es: seq<Event>, ss: seq<State>, uid: Uid, m: nat, n: nat)
    requires Run(es, ss) && m <= n < |ss|
    ensures Of(ss[m].file, uid) <= Of(ss[n].file, uid)
    decreases n
  {
    if m < n {
      StoredHashNeverLost(es, ss, uid, m, n - 1);
      InvHolds(es, ss, n - 1);
      StepLosesNothing(ss[n - 1], es[n - 1], uid);
      assert ss[n - 1 + 1] == Step(ss[n - 1], es[n - 1]);
    }
  }

  // ----- caps -------------------------------------------------------------------

  ghost predicate Within(m: map<Uid, set<string>>, cap: nat) {
    forall u :: u in m ==> |m[u]| <= cap
  }

  lemma StepKeepsSessionCap(s: State, e: Event)
    requires Within(s.session, SESSION_PER_KIND_CAP) && Enabled(s, e)
    ensures Within(Step(s, e).session, SESSION_PER_KIND_CAP)
  {
    hide L.Step, L.Enabled, ValidHashes, ValidTrustHash, Within;
    match e
    case SessionAdd(u, h) => WithinAdd(s.session, u, h, SESSION_PER_KIND_CAP);
    case CleansUp(t) => WithinCut(s.session, UserOf(s, t), s.jobs[t].persisted, SESSION_PER_KIND_CAP);
    case _ =>
  }

  lemma WithinAdd(m: map<Uid, set<string>>, u: Uid, h: string, cap: nat)
    requires Within(m, cap)
    ensures |Of(m, u)| < cap || h in Of(m, u) ==> Within(m[u := Of(m, u) + {h}], cap)
  {
    if h in Of(m, u) {
      assert Of(m, u) + {h} == Of(m, u);
    }
  }

  lemma WithinCut(m: map<Uid, set<string>>, u: Uid, gone: set<string>, cap: nat)
    requires Within(m, cap)
    ensures Within(m[u := Of(m, u) - gone], cap)
  {
    SubsetSize(Of(m, u) - gone, Of(m, u));
  }

  /** A step grows a trust file only up to the cap. */
  lemma StepGrowsToCap(s: State, e: Event, u: Uid)
    requires Inv(s) && Enabled(s, e)
    ensures |Of(Step(s, e).file, u)| <= Max(PERSISTENT_TRUST_CAP, |Of(s.file, u)|)
  {
    hide L.Inv, L.Step, L.Enabled, MayPersist, ValidTrustHash;
  }

  /** At every point of every run every session is within its cap, and every trust file
      within the cap or the size it had at the start. */
  lemma {:induction false} AlwaysCapped(es: seq<Event>, ss: seq<State>, n: nat, u: Uid)
    requires Run(es, ss) && n < |ss|
    ensures Within(ss[n].session, 4096)
    ensures |Of(ss[n].file, u)| <= Max(16384, |Of(ss[0].file, u)|)
  {
    if n > 0 {
      AlwaysCapped(es, ss, n - 1, u);
      InvHolds(es, ss, n - 1);
      StepKeepsSessionCap(ss[n - 1], es[n - 1]);
      StepGrowsToCap(ss[n - 1], es[n - 1], u);
      assert ss[n - 1 + 1] == Step(ss[n - 1], es[n - 1]);
      hide Inv, Step, Enabled, Within;
    }
  }
}
