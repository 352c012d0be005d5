/** Atoms and blocked hosts under interleaving: session adds, the phases of `session_write`,
    and direct adds and removals, in any order over the write locks and with I/O that can fail
    at every step. The same machine covers both lists. For atoms `valid` is the atom check and
    a removal is `persistent_remove_atom`; for blocked hosts `valid` is `ValidHost` and a
    removal is the opposite decision, a direct `allow` of that host (nothing ever puts a host
    on a session's own allow set). Nothing clears a session. */
module ListProtocol {
  import L = WriteLocks
  import opened Text
  import opened TrustFiles
  import opened SessionWrite

  type Uid = L.Uid
  type Tid = L.Tid

  /** What a caller inside its critical section has in hand. */
  datatype Job =
    | Adding(entry: string, read: set<string>)               // direct add, file read
    | Removing(entry: string, read: set<string>)             // direct removal, file read
    | Snapshot(session: set<string>)                         // session_write, session copied
    | Ready(text: set<string>, persisted: set<string>)       // file read, new contents computed
    | Stored(persisted: set<string>)                         // file written, cleanup to come

  /** `file` is what the reader returns for each user. */
  datatype State = State(
    locks: L.State,
    session: map<Uid, set<string>>,
    file: map<Uid, set<string>>,
    jobs: map<Tid, Job>)

  datatype Event =
    | Locking(e: L.Event)
    | SessionAdd(uid: Uid, entry: string)
    | AddReads(tid: Tid, entry: string)
    | AddWrites(tid: Tid)
    | RemoveReads(tid: Tid, entry: string)
    | RemoveWrites(tid: Tid)
    | Copies(tid: Tid)
    | Reads(tid: Tid)
    | Writes(tid: Tid)
    | Skips(tid: Tid)
    | CleansUp(tid: Tid)
    | Fails(tid: Tid)            // an error, or a direct request with nothing to change

  function Of(m: map<Uid, set<string>>, u: Uid): set<string> {
    if u in m then m[u] else {}
  }

  /** The daemon starts over whatever files are there. */
  ghost predicate Initial(s: State) {
    s.locks == L.START && s.session == map[] && s.jobs == map[] && forall u :: ReadEntries(Of(s.file, u))
  }

  predicate Inside(s: State, t: Tid) {
    t in s.locks.callers && s.locks.callers[t].inside
  }

  function UserOf(s: State, t: Tid): Uid
    requires Inside(s, t)
  {
    s.locks.callers[t].uid
  }

  predicate Has(s: State, t: Tid) { Inside(s, t) && t in s.jobs }

  predicate Free(s: State, t: Tid) { Inside(s, t) && t !in s.jobs }

  predicate Enabled(valid: string -> bool, s: State, e: Event) {
    match e
    case Locking(l) => L.Enabled(s.locks, l) && l.tid !in s.jobs
    case SessionAdd(_, _) => true
    case AddReads(t, x) => Free(s, t) && valid(x)
    case AddWrites(t) => Has(s, t) && s.jobs[t].Adding?
    case RemoveReads(t, _) => Free(s, t)
    case RemoveWrites(t) => Has(s, t) && s.jobs[t].Removing?
    case Copies(t) => Free(s, t)
    case Reads(t) => Has(s, t) && s.jobs[t].Snapshot?
    case Writes(t) => Has(s, t) && s.jobs[t].Ready?
    case Skips(t) => Has(s, t) && s.jobs[t].Ready? && s.jobs[t].persisted <= Of(s.file, UserOf(s, t))
    case CleansUp(t) => Has(s, t) && s.jobs[t].Stored?
    case Fails(t) => t in s.jobs
  }

  /** Every write is read back as `ReadBack` of what was written: see `TrustStore.SaveAtoms`
      and `TrustStore.SaveUrls`. */
  ghost function Step(valid: string -> bool, s: State, e: Event): State
    requires Enabled(valid, s, e)
  {
    match e
    case Locking(l) => s.(locks := L.Step(s.locks, l))
    case SessionAdd(u, x) => s.(session := s.session[u := Of(s.session, u) + {x}])
    case AddReads(t, x) => s.(jobs := s.jobs[t := Adding(x, Of(s.file, UserOf(s, t)))])
    case AddWrites(t) =>
      var j := s.jobs[t];
      s.(file := s.file[UserOf(s, t) := ReadBack(j.read + {j.entry})], jobs := s.jobs - {t})
    case RemoveReads(t, x) => s.(jobs := s.jobs[t := Removing(x, Of(s.file, UserOf(s, t)))])
    case RemoveWrites(t) =>
      var j := s.jobs[t];
      s.(file := s.file[UserOf(s, t) := ReadBack(j.read - {j.entry})], jobs := s.jobs - {t})
    case Copies(t) => s.(jobs := s.jobs[t := Snapshot(Of(s.session, UserOf(s, t)))])
    case Reads(t) =>
      var persisted := ValidOnes(valid, s.jobs[t].session);
      s.(jobs := s.jobs[t := Ready(Of(s.file, UserOf(s, t)) + persisted, persisted)])
    case Writes(t) =>
      var j := s.jobs[t];
      s.(file := s.file[UserOf(s, t) := ReadBack(j.text)], jobs := s.jobs[t := Stored(j.persisted)])
    case Skips(t) => s.(jobs := s.jobs[t := Stored(s.jobs[t].persisted)])
    case CleansUp(t) =>
      var u := UserOf(s, t);
      s.(session := s.session[u := Of(s.session, u) - s.jobs[t].persisted], jobs := s.jobs - {t})
    case Fails(t) => s.(jobs := s.jobs - {t})
  }

  // ----- read-back ------------------------------------------------------------------------

  /** An entry whose trimmed form a file can keep. */
  predicate Keepable(x: string) { Trim(x) != "" && !Hashed(Trim(x)) }

  lemma KeepableComesBack(x: string, entries: set<string>)
    requires Keepable(x) && x in entries
    ensures Trim(x) in ReadBack(entries)
  {
    var i, j := TrimSlice(x);
    hide Trim, Trimmed;
    assert x[i..j][0] == x[i];
    assert i == 0 || IsWhite(x[0]);
  }

  lemma ReadBackIsRead(entries: set<string>)
    ensures ReadEntries(ReadBack(entries))
  {
    forall a | a in entries ensures Trimmed(Trim(a)) {
      var i, j := TrimSlice(a);
    }
    hide Trim, Trimmed;
  }

  /** What is in a file without a leading `#` stays through a rewrite. */
  lemma FileEntryComesBack(x: string, file: set<string>, entries: set<string>)
    requires ReadEntries(file) && x in file && !Hashed(x) && x in entries
    ensures x in ReadBack(entries)
  {
    TrimOfTrimmed(x);
    hide Trim, Trimmed;
  }

  // ----- invariant --------------------------------------------------------------------------

  /** The trimmed forms of these are in the file, as far as a file can keep them. */
  ghost predicate Covered(persisted: set<string>, file: set<string>) {
    forall x :: x in persisted && Keepable(x) ==> Trim(x) in file
  }

  /** What a caller has in hand still agrees with its user's file. */
  ghost predicate Agrees(valid: string -> bool, j: Job, file: set<string>) {
    match j
    case Adding(_, read) => read == file
    case Removing(_, read) => read == file
    case Snapshot(_) => true
    case Ready(text, persisted) => text == file + persisted && AllPass(valid, persisted)
    case Stored(persisted) => Covered(persisted, file) && AllPass(valid, persisted)
  }

  ghost predicate AllPass(valid: string -> bool, entries: set<string>) { forall x :: x in entries ==> valid(x) }

  ghost predicate Inv(valid: string -> bool, s: State) {
    && L.Inv(s.locks)
    && (forall u :: ReadEntries(Of(s.file, u)))
    && forall t :: t in s.jobs ==> Inside(s, t) && Agrees(valid, s.jobs[t], Of(s.file, UserOf(s, t)))
  }

  lemma OneWriter(valid: string -> bool, s: State, t: Tid, o: Tid)
    requires Inv(valid, s) && Inside(s, t) && Inside(s, o) && t != o
    ensures UserOf(s, t) != UserOf(s, o)
  {
    hide ReadEntries, Agrees;
  }

  lemma JobAgrees(valid: string -> bool, s: State, t: Tid)
    requires Inv(valid, s) && t in s.jobs
    ensures Inside(s, t) && Agrees(valid, s.jobs[t], Of(s.file, UserOf(s, t)))
  {
    hide ReadEntries, Agrees, L.Inv;
  }

  lemma LockingKeepsOthers(s: State, l: L.Event, t: Tid)
    requires L.Enabled(s.locks, l) && t != l.tid && Inside(s, t)
    ensures Inside(s.(locks := L.Step(s.locks, l)), t)
    ensures UserOf(s.(locks := L.Step(s.locks, l)), t) == UserOf(s, t)
  {
    hide L.Obtain;
  }

  lemma LockingKeepsInv(valid: string -> bool, s: State, l: L.Event)
    requires Inv(valid, s) && Enabled(valid, s, Locking(l))
    ensures Inv(valid, Step(valid, s, Locking(l)))
  {
    hide L.Inv, L.Step, L.Enabled, Agrees, ReadEntries, ReadBack;
    L.StepKeepsInv(s.locks, l);
    var s' := s.(locks := L.Step(s.locks, l));
    forall t | t in s'.jobs ensures Inside(s', t) && Agrees(valid, s'.jobs[t], Of(s'.file, UserOf(s', t))) {
      LockingKeepsOthers(s, l, t);
    }
  }

  lemma FilesStayRead(valid: string -> bool, s: State, e: Event, u: Uid)
    requires Inv(valid, s) && Enabled(valid, s, e)
    ensures ReadEntries(Of(Step(valid, s, e).file, u))
  {
    assert ReadEntries(Of(s.file, u));
    match e
    case AddWrites(t) => ReadBackIsRead(s.jobs[t].read + {s.jobs[t].entry});
    case RemoveWrites(t) => ReadBackIsRead(s.jobs[t].read - {s.jobs[t].entry});
    case Writes(t) => ReadBackIsRead(s.jobs[t].text);
    case _ =>
    hide Inv, ReadEntries, ReadBack, L.Step, L.Enabled;
  }

  lemma WriteCovers(persisted: set<string>, text: set<string>)
    requires persisted <= text
    ensures Covered(persisted, ReadBack(text))
  {
    hide ReadBack, Keepable;
    forall x | x in persisted && Keepable(x) ensures Trim(x) in ReadBack(text) {
      KeepableComesBack(x, text);
    }
  }

  lemma SkipCovers(persisted: set<string>, file: set<string>)
    requires ReadEntries(file) && persisted <= file
    ensures Covered(persisted, file)
  {
    forall x | x in persisted ensures Trim(x) == x {
      TrimOfTrimmed(x);
    }
    hide Trim, Trimmed;
  }

  lemma OwnJobAgrees(valid: string -> bool, s: State, e: Event)
    requires Inv(valid, s) && Enabled(valid, s, e) && !e.Locking? && !e.SessionAdd? && e.tid in Step(valid, s, e).jobs
    ensures var s' := Step(valid, s, e);
            Inside(s', e.tid) && Agrees(valid, s'.jobs[e.tid], Of(s'.file, UserOf(s', e.tid)))
  {
    if e.tid in s.jobs {
      JobAgrees(valid, s, e.tid);
    }
    match e
    case Writes(t) => WriteCovers(s.jobs[t].persisted, s.jobs[t].text);
    case Skips(t) => SkipCovers(s.jobs[t].persisted, Of(s.file, UserOf(s, t)));
    case _ =>
    hide Inv, ReadEntries, ReadBack, Covered, L.Step, L.Enabled;
  }

  lemma OtherJobAgrees(valid: string -> bool, s: State, e: Event, t: Tid)
    requires Inv(valid, s) && Enabled(valid, s, e) && !e.Locking? && !e.SessionAdd? && t != e.tid
    requires t in Step(valid, s, e).jobs
    ensures var s' := Step(valid, s, e);
            Inside(s', t) && Agrees(valid, s'.jobs[t], Of(s'.file, UserOf(s', t)))
  {
    hide L.Step, L.Enabled, Agrees, ReadBack, ReadEntries;
    assert t in s.jobs;
    JobAgrees(valid, s, t);
    if Inside(s, e.tid) {
      OneWriter(valid, s, t, e.tid);
    }
    hide Inv;
  }

  lemma StepKeepsInv(valid: string -> bool, s: State, e: Event)
    requires Inv(valid, s) && Enabled(valid, s, e)
    ensures Inv(valid, Step(valid, s, e))
  {
    hide L.Inv, L.Step, L.Enabled, Agrees, ReadEntries, ReadBack;
    if e.Locking? {
      LockingKeepsInv(valid, s, e.e);
    } else if !e.SessionAdd? {
      var s' := Step(valid, s, e);
      forall u ensures ReadEntries(Of(s'.file, u)) {
        FilesStayRead(valid, s, e, u);
      }
      forall t | t in s'.jobs ensures Inside(s', t) && Agrees(valid, s'.jobs[t], Of(s'.file, UserOf(s', t))) {
        if t == e.tid {
          OwnJobAgrees(valid, s, e);
        } else {
          OtherJobAgrees(valid, s, e, t);
        }
      }
    }
  }

  // ----- what a step can take away -------------------------------------------------------------

  /** The step removes `x` from the list of `u`. */
  predicate Removes(s: State, e: Event, u: Uid, x: string) {
    e.RemoveWrites? && Has(s, e.tid) && s.jobs[e.tid].Removing? && UserOf(s, e.tid) == u && s.jobs[e.tid].entry == x
  }

  /** A file keeps every entry without a leading `#` unless the step removes that very one. */
  lemma FileKeeps(valid: string -> bool, s: State, e: Event, u: Uid, x: string)
    requires Inv(valid, s) && Enabled(valid, s, e) && x in Of(s.file, u) && !Hashed(x) && !Removes(s, e, u, x)
    ensures x in Of(Step(valid, s, e).file, u)
  {
    var file := Of(s.file, u);
    assert ReadEntries(file);
    if (e.AddWrites? || e.RemoveWrites? || e.Writes?) && UserOf(s, e.tid) == u {
      JobAgrees(valid, s, e.tid);
      var j := s.jobs[e.tid];
      var text := if e.AddWrites? then j.read + {j.entry} else if e.RemoveWrites? then j.read - {j.entry} else j.text;
      FileEntryComesBack(x, file, text);
    }
    hide Inv, ReadEntries, ReadBack, L.Step, L.Enabled;
  }

  /** A session loses an entry only to a cleanup, and then the entry is valid and covered. */
  lemma SessionKeeps(valid: string -> bool, s: State, e: Event, u: Uid, x: string)
    requires Inv(valid, s) && Enabled(valid, s, e) && x in Of(s.session, u)
    ensures x in Of(Step(valid, s, e).session, u) || (valid(x) && (Keepable(x) ==> Trim(x) in Of(s.file, u)))
  {
    if e.CleansUp? {
      JobAgrees(valid, s, e.tid);
    }
    hide Inv, ReadEntries, ReadBack, L.Step, L.Enabled, Keepable;
  }

  /** What is asked for happens: an added entry is in the file if a file can keep it, a removed
      one is not, and a cleanup takes exactly what was persisted out of the session. */
  lemma StepDoes(valid: string -> bool, s: State, e: Event)
    requires Inv(valid, s) && Enabled(valid, s, e)
    ensures e.AddWrites? && Keepable(s.jobs[e.tid].entry) ==>
              Trim(s.jobs[e.tid].entry) in Of(Step(valid, s, e).file, UserOf(s, e.tid))
    ensures e.RemoveWrites? ==> s.jobs[e.tid].entry !in Of(Step(valid, s, e).file, UserOf(s, e.tid))
    ensures e.Writes? ==> Covered(s.jobs[e.tid].persisted, Of(Step(valid, s, e).file, UserOf(s, e.tid)))
    ensures e.CleansUp? ==>
              var u := UserOf(s, e.tid);
              Of(Step(valid, s, e).session, u) == Of(s.session, u) - s.jobs[e.tid].persisted
    ensures e.Reads? ==> Step(valid, s, e).jobs[e.tid].persisted == set x | x in s.jobs[e.tid].session && valid(x)
  {
    match e
    case AddWrites(t) =>
      if Keepable(s.jobs[t].entry) {
        KeepableComesBack(s.jobs[t].entry, s.jobs[t].read + {s.jobs[t].entry});
      }
    case RemoveWrites(t) =>
      JobAgrees(valid, s, t);
      RemovedIsGone(s.jobs[t].read, s.jobs[t].entry);
    case Writes(t) =>
      JobAgrees(valid, s, t);
      WriteCovers(s.jobs[t].persisted, s.jobs[t].text);
    case _ =>
    hide Inv, ReadEntries, ReadBack, Covered, Keepable, L.Step, L.Enabled;
  }

  lemma RemovedIsGone(file: set<string>, x: string)
    requires ReadEntries(file)
    ensures x !in ReadBack(file - {x})
  {
    forall a | a in file ensures Trim(a) == a {
      TrimOfTrimmed(a);
    }
    hide Trim, Trimmed;
  }

  // ----- whole runs ------------------------------------------------------------------------------

  ghost predicate Run(valid: string -> bool, es: seq<Event>, ss: seq<State>) {
    && |ss| == |es| + 1 && Initial(ss[0])
    && forall i {:trigger es[i]} :: 0 <= i < |es| ==>
         Enabled(valid, ss[i], es[i]) && ss[i + 1] == Step(valid, ss[i], es[i])
  }

  lemma {:induction false} InvHolds(valid: string -> bool, es: seq<Event>, ss: seq<State>, n: nat)
    requires Run(valid, es, ss) && n < |ss|
    ensures Inv(valid, ss[n])
  {
    if n > 0 {
      hide Step, Enabled;
      InvHolds(valid, es, ss, n - 1);
      assert Enabled(valid, ss[n - 1], es[n - 1]) && ss[n - 1 + 1] == Step(valid, ss[n - 1], es[n - 1]);
      hide Inv;
      StepKeepsInv(valid, ss[n - 1], es[n - 1]);
    }
  }

  /** Some step from `lo` on removed `x` from the list of `u`. */
  ghost predicate Removed(es: seq<Event>, ss: seq<State>, u: Uid, x: string, lo: nat, hi: nat)
    requires hi <= |es| && |ss| == |es| + 1
  {
    exists k {:trigger es[k]} :: lo <= k < hi && Removes(ss[k], es[k], u, x)
  }

  /** In the session, or trimmed in the file, or nothing a file can keep. */
  ghost predicate Safe(valid: string -> bool, s: State, u: Uid, x: string) {
    x in Of(s.session, u) || (valid(x) && (Keepable(x) ==> Trim(x) in Of(s.file, u)))
  }

  lemma StepKeepsSafe(valid: string -> bool, s: State, e: Event, u: Uid, x: string)
    requires Inv(valid, s) && Enabled(valid, s, e) && Safe(valid, s, u, x) && !Removes(s, e, u, Trim(x))
    ensures Safe(valid, Step(valid, s, e), u, x)
  {
    hide Inv, Step, Enabled, Trim, Removes;
    if x in Of(s.session, u) {
      SessionKeeps(valid, s, e, u, x);
    }
    if Keepable(x) && Trim(x) in Of(s.file, u) {
      FileKeeps(valid, s, e, u, Trim(x));
    }
  }

  /** An entry added to a session is from then on in the session, or trimmed in the file,
      until that trimmed form is removed. The exceptions are validated entries that are blank
      or whose trimmed form starts with `#`; an entry that does not validate never leaves the
      session. */
  lemma {:induction false} SessionEntryKept(valid: string -> bool, es: seq<Event>, ss: seq<State>, i: nat, n: nat)
    requires Run(valid, es, ss) && i < n <= |es| && es[i].SessionAdd?
    ensures var u, x := es[i].uid, es[i].entry;
            Safe(valid, ss[n], u, x) || Removed(es, ss, u, Trim(x), i + 1, n)
    decreases n
  {
    var u, x := es[i].uid, es[i].entry;
    assert Enabled(valid, ss[n - 1], es[n - 1]) && ss[n - 1 + 1] == Step(valid, ss[n - 1], es[n - 1]);
    if n - 1 > i {
      SessionEntryKept(valid, es, ss, i, n - 1);
      InvHolds(valid, es, ss, n - 1);
      hide Step, Enabled, Inv, Safe, Trim;
      if Removes(ss[n - 1], es[n - 1], u, Trim(x)) {
        assert Removed(es, ss, u, Trim(x), i + 1, n);
      } else if !Removed(es, ss, u, Trim(x), i + 1, n - 1) {
        StepKeepsSafe(valid, ss[n - 1], es[n - 1], u, x);
      }
    }
  }

  /** ... and what does not validate stays for good. */
  lemma {:induction false} InvalidEntryStays(valid: string -> bool, es: seq<Event>, ss: seq<State>, i: nat, n: nat)
    requires Run(valid, es, ss) && i < n <= |es| && es[i].SessionAdd? && !valid(es[i].entry)
    ensures es[i].entry in Of(ss[n].session, es[i].uid)
    decreases n
  {
    assert Enabled(valid, ss[n - 1], es[n - 1]) && ss[n - 1 + 1] == Step(valid, ss[n - 1], es[n - 1]);
    if n - 1 > i {
      InvalidEntryStays(valid, es, ss, i, n - 1);
      InvHolds(valid, es, ss, n - 1);
      hide Step, Enabled, Inv, Keepable;
      SessionKeeps(valid, ss[n - 1], es[n - 1], es[i].uid, es[i].entry);
    }
  }

  /** A file entry without a leading `#` stays until it is removed. */
  lemma {:induction false} FileEntryKept(valid: string -> bool, es: seq<Event>, ss: seq<State>,
                                         u: Uid, x: string, m: nat, n: nat)
    requires Run(valid, es, ss) && m <= n <= |es| && x in Of(ss[m].file, u) && !Hashed(x)
    ensures x in Of(ss[n].file, u) || Removed(es, ss, u, x, m, n)
    decreases n
  {
    if m < n {
      FileEntryKept(valid, es, ss, u, x, m, n - 1);
      InvHolds(valid, es, ss, n - 1);
      assert Enabled(valid, ss[n - 1], es[n - 1]) && ss[n - 1 + 1] == Step(valid, ss[n - 1], es[n - 1]);
      hide Step, Enabled, Inv;
      if Removes(ss[n - 1], es[n - 1], u, x) {
        assert Removed(es, ss, u, x, m, n);
      } else if x in Of(ss[n - 1].file, u) {
        FileKeeps(valid, ss[n - 1], es[n - 1], u, x);
      }
    }
  }
}
