/** Moving a user's session decisions into the persistent files. */
module SessionWrite {
  import opened Sets
  import opened Text
  import opened TrustFiles

  const SESSION_PER_KIND_CAP := 4096
  const PERSISTENT_TRUST_CAP := 16384

  // ----- set arithmetic ---------------------------------------------------------

  function Min(a: int, b: int): int { if a < b then a else b }
  function Max(a: int, b: int): int { if a < b then b else a }

  /** `l` lists the elements of `s`, each once. */
  ghost predicate Lists(l: seq<string>, s: set<string>) {
    |l| == |s| && forall x :: x in l <==> x in s
  }

  lemma ListsOneMore(l: seq<string>, s: set<string>, x: string)
    requires Lists(l, s) && x !in s
    ensures Lists(l + [x], s + {x})
  {
  }

  lemma UnionSize(a: set<string>, b: set<string>)
    ensures |a + b| == |a| + |b - a|
  {
    assert a + b == a + (b - a);
  }

  // ----- one pass per kind ------------------------------------------------------

  ghost function ValidHashes(s: set<string>): set<string> {
    set h | h in s && ValidTrustHash(h)
  }

  lemma OneMoreHash(s: set<string>, h: string)
    ensures ValidHashes(s + {h}) == if ValidTrustHash(h) then ValidHashes(s) + {h} else ValidHashes(s)
  {
    hide ValidTrustHash;
  }

  /** Room left under the cap of the trust file. */
  function Room(file: set<string>): nat {
    Max(16384 - |file|, 0)
  }

  /** The entries looked at so far, by outcome: good ones are stored or found full. */
  ghost predicate Sorted(done: set<string>, good: set<string>, bad: set<string>,
                         stored: set<string>, full: set<string>) {
    good <= done && bad == done - good && stored <= good && full == good - stored
  }

  lemma SortMore(done: set<string>, good: set<string>, bad: set<string>,
                 stored: set<string>, full: set<string>, h: string)
    requires Sorted(done, good, bad, stored, full) && h !in done
    ensures h !in bad && h !in full
    ensures Sorted(done + {h}, good, bad + {h}, stored, full)
    ensures Sorted(done + {h}, good + {h}, bad, stored + {h}, full)
    ensures Sorted(done + {h}, good + {h}, bad, stored, full + {h})
  {
  }

  /** The trust file being built: what it held, what was stored, and the cap. */
  ghost predicate Filed(file: set<string>, good: set<string>, stored: set<string>, existing: set<string>, added: nat) {
    && existing == file + stored && good * file <= stored
    && |existing| == |file| + added <= Max(PERSISTENT_TRUST_CAP, |file|)
    && (good - stored != {} ==> |existing| >= PERSISTENT_TRUST_CAP)
  }

  lemma FileMore(file: set<string>, good: set<string>, stored: set<string>, existing: set<string>,
                 added: nat, h: string)
    requires Filed(file, good, stored, existing, added) && h !in good && stored <= good
    ensures h in existing ==> Filed(file, good + {h}, stored + {h}, existing, added)
    ensures h !in existing && |existing| < PERSISTENT_TRUST_CAP ==>
              Filed(file, good + {h}, stored + {h}, existing + {h}, added + 1)
    ensures h !in existing && |existing| >= PERSISTENT_TRUST_CAP ==> Filed(file, good + {h}, stored, existing, added)
  {
    assert (good + {h}) - (stored + {h}) == good - stored;
  }

  /** The loop over the session's trust hashes, in any iteration order: already stored or
      stored now, invalid, or blocked by a full file, and nothing twice. */
  method PersistTrust(session: set<string>, file: set<string>)
    returns (existing: set<string>, persisted: set<string>, invalid: seq<string>, blocked: seq<string>, added: nat)
    ensures Lists(invalid, session - ValidHashes(session))
    ensures persisted <= ValidHashes(session) && Lists(blocked, ValidHashes(session) - persisted)
    ensures existing == file + persisted && ValidHashes(session) * file <= persisted
    ensures added == |existing| - |file| == Min(|ValidHashes(session) - file|, Room(file))
    ensures |existing| <= Max(PERSISTENT_TRUST_CAP, |file|)
  {
    hide *;
    existing, persisted, invalid, blocked, added := file, {}, [], [], 0;
    var todo := session;
    ghost var done: set<string>, full: set<string> := {}, {};
    StartEmpty(file);
    while todo != {}
      invariant Split(session, todo, done)
      invariant Outcome(done, file, existing, persisted, invalid, blocked, full, added)
      decreases |todo|
    {
      var h :| h in todo;
      NextEntry(session, todo, done, h);
      todo := todo - {h};
      OutcomeSteps(done, file, existing, persisted, invalid, blocked, full, added, h);
      if ValidTrustHash(h) {
        if h in existing {
          persisted := persisted + {h};
        } else if |existing| >= PERSISTENT_TRUST_CAP {
          blocked, full := blocked + [h], full + {h};
        } else {
          existing := existing + {h};
          added := added + 1;
          persisted := persisted + {h};
        }
      } else {
        invalid := invalid + [h];
      }
      done := done + {h};
    }
    OutcomeAtEnd(session, done, file, existing, persisted, invalid, blocked, full, added);
  }

  ghost predicate Split(all: set<string>, todo: set<string>, done: set<string>) {
    done !! todo && done + todo == all
  }

  lemma NextEntry(all: set<string>, todo: set<string>, done: set<string>, h: string)
    requires Split(all, todo, done) && h in todo
    ensures Split(all, todo - {h}, done + {h}) && h !in done && |todo - {h}| < |todo|
  {
  }

  /** Where the loop stands after the hashes in `done`. */
  ghost predicate Outcome(done: set<string>, file: set<string>, existing: set<string>, stored: set<string>,
                          invalid: seq<string>, blocked: seq<string>, full: set<string>, added: nat) {
    var good := ValidHashes(done);
    && Sorted(done, good, done - good, stored, full)
    && Lists(invalid, done - good) && Lists(blocked, full)
    && Filed(file, good, stored, existing, added)
  }

  lemma OutcomeSteps(done: set<string>, file: set<string>, existing: set<string>, stored: set<string>,
                     invalid: seq<string>, blocked: seq<string>, full: set<string>, added: nat, h: string)
    requires Outcome(done, file, existing, stored, invalid, blocked, full, added) && h !in done
    ensures !ValidTrustHash(h) ==> Outcome(done + {h}, file, existing, stored, invalid + [h], blocked, full, added)
    ensures ValidTrustHash(h) && h in existing ==>
              Outcome(done + {h}, file, existing, stored + {h}, invalid, blocked, full, added)
    ensures ValidTrustHash(h) && h !in existing && |existing| >= PERSISTENT_TRUST_CAP ==>
              Outcome(done + {h}, file, existing, stored, invalid, blocked + [h], full + {h}, added)
    ensures ValidTrustHash(h) && h !in existing && |existing| < PERSISTENT_TRUST_CAP ==>
              Outcome(done + {h}, file, existing + {h}, stored + {h}, invalid, blocked, full, added + 1)
  {
    var good := ValidHashes(done);
    var bad := done - good;
    OneMoreHash(done, h);
    SortedFacts(done, good, bad, stored, full);
    SortMore(done, good, bad, stored, full, h);
    FileMore(file, good, stored, existing, added, h);
    ListsOneMore(blocked, full, h);
    ListsOneMore(invalid, bad, h);
    assert (done + {h}) - (good + {h}) == bad;
    assert (done + {h}) - good == bad + {h};
    hide Sorted, Filed, Lists, ValidHashes, ValidTrustHash;
  }

  lemma OutcomeAtEnd(session: set<string>, done: set<string>, file: set<string>, existing: set<string>,
                     stored: set<string>, invalid: seq<string>, blocked: seq<string>, full: set<string>, added: nat)
    requires Split(session, {}, done) && Outcome(done, file, existing, stored, invalid, blocked, full, added)
    ensures Lists(invalid, session - ValidHashes(session))
    ensures stored <= ValidHashes(session) && Lists(blocked, ValidHashes(session) - stored)
    ensures existing == file + stored && ValidHashes(session) * file <= stored
    ensures added == |existing| - |file| == Min(|ValidHashes(session) - file|, Room(file))
    ensures |existing| <= Max(PERSISTENT_TRUST_CAP, |file|)
  {
    assert done == session;
    CountAdded(ValidHashes(done), file, stored, existing, added);
    hide Filed, Lists, ValidHashes, Room, Min, Max;
  }

  lemma SortedFacts(done: set<string>, good: set<string>, bad: set<string>, stored: set<string>, full: set<string>)
    requires Sorted(done, good, bad, stored, full)
    ensures good <= done && bad == done - good && stored <= good && full == good - stored
  {
  }

  lemma StartEmpty(file: set<string>)
    ensures Outcome({}, file, file, {}, [], [], {}, 0)
    ensures forall s :: Split(s, s, {})
  {
    assert ValidHashes({}) == {};
  }

  lemma CountAdded(good: set<string>, file: set<string>, stored: set<string>, existing: set<string>, added: nat)
    requires stored <= good && Filed(file, good, stored, existing, added)
    ensures existing == file + stored && good * file <= stored
    ensures added == |existing| - |file| == Min(|good - file|, Room(file))
    ensures |existing| <= Max(PERSISTENT_TRUST_CAP, |file|)
  {
    UnionSize(file, stored);
    SubsetSize(stored - file, good - file);
    if good - stored == {} {
      forall x | x in good ensures x in stored { assert x !in good - stored; }
      assert stored == good;
    } else {
      var x :| x in good - stored;
      assert x !in good * file && x in good - file && x !in stored - file;
    }
  }

  // ----- atoms ------------------------------------------------------------------

  ghost function ValidOnes(valid: string -> bool, s: set<string>): set<string> {
    set a | a in s && valid(a)
  }

  /** Where a pass without a cap stands: every valid entry goes into the target. */
  ghost predicate Passed(valid: string -> bool, done: set<string>, target: set<string>, existing: set<string>,
                         stored: set<string>, invalid: seq<string>, added: nat) {
    && stored == ValidOnes(valid, done) && existing == target + stored
    && Lists(invalid, done - stored) && added == |stored - target|
  }

  lemma PassSkips(valid: string -> bool, done: set<string>, target: set<string>, existing: set<string>,
                  stored: set<string>, invalid: seq<string>, added: nat, a: string)
    requires Passed(valid, done, target, existing, stored, invalid, added) && a !in done && !valid(a)
    ensures Passed(valid, done + {a}, target, existing, stored, invalid + [a], added)
  {
    ListsOneMore(invalid, done - stored, a);
    assert (done + {a}) - stored == (done - stored) + {a};
    assert ValidOnes(valid, done + {a}) == stored;
    hide Lists;
  }

  lemma PassTakes(valid: string -> bool, done: set<string>, target: set<string>, existing: set<string>,
                  stored: set<string>, invalid: seq<string>, added: nat, a: string)
    requires Passed(valid, done, target, existing, stored, invalid, added) && a !in done && valid(a)
    ensures Passed(valid, done + {a}, target, existing + {a}, stored + {a}, invalid,
                   added + if a in existing then 0 else 1)
  {
    assert (done + {a}) - (stored + {a}) == done - stored;
    assert ValidOnes(valid, done + {a}) == stored + {a};
    hide Lists;
    if a in target {
      assert (stored + {a}) - target == stored - target;
    } else {
      assert (stored + {a}) - target == (stored - target) + {a};
    }
  }

  lemma PassStarts(valid: string -> bool, target: set<string>)
    ensures Passed(valid, {}, target, target, {}, [], 0)
  {
    assert target + {} == target;
  }

  /** The loop over session atoms; `valid` is `validate_atom`. */
  method PersistAtoms(valid: string -> bool, session: set<string>, file: set<string>)
    returns (existing: set<string>, persisted: set<string>, invalid: seq<string>, added: nat)
    ensures Passed(valid, session, file, existing, persisted, invalid, added)
  {
    hide *;
    existing, persisted, invalid, added := file, {}, [], 0;
    var todo := session;
    ghost var done: set<string> := {};
    PassStarts(valid, file);
    StartEmpty(file);
    while todo != {}
      invariant Split(session, todo, done)
      invariant Passed(valid, done, file, existing, persisted, invalid, added)
      decreases |todo|
    {
      var a :| a in todo;
      NextEntry(session, todo, done, a);
      todo := todo - {a};
      if valid(a) {
        PassTakes(valid, done, file, existing, persisted, invalid, added, a);
        if a !in existing {
          added := added + 1;
        }
        existing := existing + {a};
        persisted := persisted + {a};
      } else {
        PassSkips(valid, done, file, existing, persisted, invalid, added, a);
        invalid := invalid + [a];
      }
      done := done + {a};
    }
    assert done == session by { AllDone(session, done); }
  }

  lemma AllDone(all: set<string>, done: set<string>)
    requires Split(all, {}, done)
    ensures done == all
  {
  }

  // ----- URL decisions ----------------------------------------------------------

  /** One of the two loops: each valid host leaves `from` and enters `into`. */
  method PersistHosts(session: set<string>, into: set<string>, from: set<string>)
    returns (into': set<string>, from': set<string>, persisted: set<string>, invalid: seq<string>, added: nat)
    ensures Passed(ValidHost, session, into, into', persisted, invalid, added)
    ensures from' == from - persisted
  {
    hide *;
    into', from', persisted, invalid, added := into, from, {}, [], 0;
    var todo := session;
    ghost var done: set<string> := {};
    PassStarts(ValidHost, into);
    StartEmpty(into);
    while todo != {}
      invariant Split(session, todo, done)
      invariant Passed(ValidHost, done, into, into', persisted, invalid, added)
      invariant from' == from - persisted
      decreases |todo|
    {
      var h :| h in todo;
      NextEntry(session, todo, done, h);
      todo := todo - {h};
      if ValidHost(h) {
        PassTakes(ValidHost, done, into, into', persisted, invalid, added, h);
        from' := from' - {h};
        if h !in into' {
          added := added + 1;
        }
        into' := into' + {h};
        persisted := persisted + {h};
      } else {
        PassSkips(ValidHost, done, into, into', persisted, invalid, added, h);
        invalid := invalid + [h];
      }
      done := done + {h};
    }
    assert done == session by { AllDone(session, done); }
  }

  ghost function Hosts(s: set<string>): set<string> {
    set h | h in s && ValidHost(h)
  }

  /** Both loops of `session_write`, allow first. */
  method PersistUrls(sessAllow: set<string>, sessBlock: set<string>, allow0: set<string>, block0: set<string>)
    returns (allow: set<string>, block: set<string>, pAllow: set<string>, pBlock: set<string>,
             invalid: seq<string>, allowAdded: nat, blockAdded: nat)
    ensures pAllow == Hosts(sessAllow) && pBlock == Hosts(sessBlock)
    ensures allow == (allow0 + pAllow) - pBlock && block == (block0 - pAllow) + pBlock
    ensures allow0 !! block0 ==> allow !! block
    ensures allowAdded == |pAllow - allow0| && blockAdded == |pBlock - (block0 - pAllow)|
    ensures forall h :: h in invalid <==> (h in sessAllow && h !in pAllow) || (h in sessBlock && h !in pBlock)
    ensures |invalid| == |sessAllow - pAllow| + |sessBlock - pBlock|
  {
    var bad: seq<string>;
    allow, block, pAllow, invalid, allowAdded := PersistHosts(sessAllow, allow0, block0);
    block, allow, pBlock, bad, blockAdded := PersistHosts(sessBlock, block, allow);
    hide ValidHost;
    invalid := invalid + bad;
  }

  /** When both counters are zero the write is skipped. That is right exactly when no host of
      the session is on the other list; in a file with disjoint lists it always is. */
  lemma SkippedWriteIsRight(allow: set<string>, block: set<string>, A: set<string>, B: set<string>)
    requires |A - allow| == 0 && |B - (block - A)| == 0
    ensures (allow + A) - B == allow && (block - A) + B == block <==> A !! block && B !! allow
    ensures allow !! block ==> A !! block && B !! allow
  {
    assert A - allow == {} && B - (block - A) == {};
    assert forall x :: x in A ==> x in allow by { forall x | x in A ensures x in allow { assert x !in A - allow; } }
    forall x | x in B ensures x in block && x !in A { assert x !in B - (block - A); }
    if (allow + A) - B == allow && (block - A) + B == block {
      forall x | x in A ensures x !in block { assert x in block ==> x in (block - A) + B; }
      forall x | x in B ensures x !in allow { assert x in allow ==> x in (allow + A) - B; }
    }
  }

  /** A hand-edited file that lists a host on both sides keeps it there when the session
      allows the host, although the decision is dropped from the session. */
  lemma SkippedWriteOnOverlap(h: string)
    ensures var allow, block, A, B: set<string> := {h}, {h}, {h}, {};
            |A - allow| == 0 && |B - (block - A)| == 0 && (block - A) + B != block
  {
    assert {h} - {h} == {};
    var B: set<string> := {};
    assert B - ({h} - {h}) == {};
    assert h !in ({h} - {h}) + B;
  }

  datatype Decision = Allow | Block

  /** `persistent_add_url`: the host leaves both lists, then joins the one decided on. */
  function AddUrl(allow: set<string>, block: set<string>, host: string, d: Decision): (r: (set<string>, set<string>))
    ensures allow !! block ==> r.0 !! r.1
    ensures host in (if d.Allow? then r.0 else r.1) && host !in (if d.Allow? then r.1 else r.0)
    ensures forall h :: h != host ==> (h in r.0 <==> h in allow) && (h in r.1 <==> h in block)
  {
    if d.Allow? then (allow - {host} + {host}, block - {host}) else (allow - {host}, block - {host} + {host})
  }

  // ----- what the written lists are read back as ----------------------------------

  ghost predicate AllValid(hosts: set<string>) {
    forall h :: h in hosts ==> ValidHost(h)
  }

  ghost predicate AllTrimmed(hosts: set<string>) {
    forall h :: h in hosts ==> Trimmed(h)
  }

  ghost predicate NoHash(hosts: set<string>) {
    forall h :: h in hosts && h != "" ==> h[0] != '#'
  }

  function Unhashed(hosts: set<string>): set<string> {
    set h | h in hosts && h != "" && h[0] != '#'
  }

  lemma BackOfUnion(a: set<string>, b: set<string>)
    ensures ReadBack(a + b) == ReadBack(a) + ReadBack(b)
  {
    hide Trim;
  }

  lemma BackOfRead(hosts: set<string>)
    requires ReadEntries(hosts)
    ensures ReadBack(hosts) == Unhashed(hosts)
  {
    forall h | h in hosts ensures Trim(h) == h {
      TrimOfTrimmed(h);
    }
    hide Trim, Trimmed;
  }

  lemma BackOfValid(hosts: set<string>)
    requires AllValid(hosts)
    ensures ReadBack(hosts) == TrimmedForms(hosts) && NoHash(TrimmedForms(hosts))
  {
    hide Trim, Utf8Len;
    forall h | h in hosts ensures h != "" && h[0] != '#' && '#' !in Trim(h) {
      var i, j := TrimSlice(h);
      assert forall k :: 0 <= k < j - i ==> h[i..j][k] == h[i + k];
    }
  }

  /** Two lists that are read back from what a write put together: what was on disk loses its
      hosts with a leading `#`, what is new comes back trimmed. */
  lemma BackOfMerge(read: set<string>, added: set<string>)
    requires ReadEntries(read) && AllValid(added)
    ensures ReadBack(read + added) == Unhashed(read) + TrimmedForms(added)
    ensures NoHash(TrimmedForms(added))
  {
    hide *;
    BackOfUnion(read, added);
    BackOfRead(read);
    BackOfValid(added);
  }

  /** After a write over disjoint lists, for any validated hosts A and B, the lists on disk are
      disjoint exactly when the trimmed forms of the new hosts meet nothing that stays on the
      other list. */
  lemma DisjointOnDiskIff(allow: set<string>, block: set<string>, A: set<string>, B: set<string>)
    requires ReadEntries(allow) && ReadEntries(block) && allow !! block && AllValid(A) && AllValid(B)
    ensures ReadBack((allow + A) - B) !! ReadBack((block - A) + B) <==>
              && TrimmedForms(A - B) !! (block - A) + TrimmedForms(B)
              && TrimmedForms(B) !! allow - B
  {
    hide TrimmedForms, ReadBack, ValidHost, Trimmed;
    assert (allow + A) - B == (allow - B) + (A - B);
    BackOfMerge(allow - B, A - B);
    BackOfMerge(block - A, B);
    DisjointParts(allow - B, TrimmedForms(A - B), block - A, TrimmedForms(B));
  }

  lemma DisjointParts(r1: set<string>, t1: set<string>, r2: set<string>, t2: set<string>)
    requires r1 !! r2 && NoHash(t1) && NoHash(t2) && "" !in r1 && "" !in r2
    ensures Unhashed(r1) + t1 !! Unhashed(r2) + t2 <==> t1 !! r2 + t2 && t2 !! r1
  {
    assert Unhashed(r1) <= r1 && Unhashed(r2) <= r2;
    forall h | h in t1 ensures h in r2 <==> h in Unhashed(r2) {}
    forall h | h in t2 ensures h in r1 <==> h in Unhashed(r1) {}
  }

  /** The lists on disk are the ones that were written exactly when every new host is trimmed
      and no host on disk starts with `#`. */
  lemma ExactOnDiskIff(allow: set<string>, block: set<string>, A: set<string>, B: set<string>)
    requires ReadEntries(allow) && ReadEntries(block) && AllValid(A) && AllValid(B)
    ensures ReadBack((allow + A) - B) == (allow + A) - B && ReadBack((block - A) + B) == (block - A) + B <==>
              AllTrimmed(A + B) && NoHash(allow + block)
  {
    var X, Y := (allow + A) - B, (block - A) + B;
    ValidHaveNoHash(A);
    ValidHaveNoHash(B);
    BackIsSameIff(X);
    BackIsSameIff(Y);
    hide ReadBack, ValidHost, Trimmed;
    if AllTrimmed(X) && NoHash(X) && AllTrimmed(Y) && NoHash(Y) {
      forall h | h in A + B ensures Trimmed(h) {
        assert h in X || h in Y;
      }
      forall h | h in allow + block && h != "" ensures h[0] != '#' {
        assert h in X || h in Y || h in A || h in B;
      }
    }
  }

  lemma ValidHaveNoHash(hosts: set<string>)
    requires AllValid(hosts)
    ensures NoHash(hosts) && "" !in hosts
  {
    hide Utf8Len;
  }

  lemma BackIsSameIff(hosts: set<string>)
    requires "" !in hosts
    ensures ReadBack(hosts) == hosts <==> AllTrimmed(hosts) && NoHash(hosts)
  {
    forall h | h in hosts ensures Trimmed(Trim(h)) && (Trimmed(h) ==> Trim(h) == h) {
      var i, j := TrimSlice(h);
      if Trimmed(h) {
        TrimOfTrimmed(h);
      }
    }
    hide Trim, Trimmed;
    if ReadBack(hosts) == hosts {
      forall h | h in hosts ensures Trimmed(h) && h[0] != '#' {
        assert h in ReadBack(hosts);
      }
    }
  }

  /** After a direct decision the lists stay disjoint on disk exactly when the trimmed host is
      not still on the other list, which a host without outer whitespace never is. */
  lemma AddUrlOnDisk(allow: set<string>, block: set<string>, host: string, d: Decision)
    requires ReadEntries(allow) && ReadEntries(block) && allow !! block && ValidHost(host)
    ensures var (a, b) := AddUrl(allow, block, host, d);
            var other := if d.Allow? then block else allow;
            ReadBack(a) !! ReadBack(b) <==> host == Trim(host) || Trim(host) == "" || Trim(host) !in other
  {
    hide ReadBack, ValidHost, Trimmed, Trim;
    OneForm(host);
    var none: set<string> := {};
    assert TrimmedForms({}) == {};
    hide TrimmedForms;
    if d.Allow? {
      DisjointOnDiskIff(allow, block, {host}, {});
      assert allow - {host} + {host} == (allow + {host}) - {} && block - {host} == (block - {host}) + {};
      assert {host} - {} == {host};
    } else {
      DisjointOnDiskIff(allow, block, {}, {host});
      assert allow - {host} == (allow + {}) - {host} && block - {host} + {host} == (block - {}) + {host};
      assert none - {host} == {};
    }
  }

  /** On disk, after a direct decision: the decided host is on its list, trimmed, and every
      other host is on each list exactly when it was before and does not start with `#`. */
  lemma OthersKeepTheirList(allow: set<string>, block: set<string>, host: string, d: Decision, h: string)
    requires ReadEntries(allow) && ReadEntries(block) && ValidHost(host)
    ensures var (a, b) := AddUrl(allow, block, host, d);
            && (Trim(host) != "" ==> Trim(host) in ReadBack(if d.Allow? then a else b))
            && (h != host && h != Trim(host) ==>
                  && (h in ReadBack(a) <==> h in allow && !Hashed(h))
                  && (h in ReadBack(b) <==> h in block && !Hashed(h)))
  {
    OneForm(host);
    var none: set<string> := {};
    assert TrimmedForms({}) == {};
    assert AllValid({host}) && AllValid({});
    hide ReadBack, ValidHost, Trimmed, Trim, TrimmedForms;
    var (a, b) := AddUrl(allow, block, host, d);
    if d.Allow? {
      assert a == (allow - {host}) + {host} && b == (block - {host}) + {};
      BackOfMerge(allow - {host}, {host});
      BackOfMerge(block - {host}, {});
    } else {
      assert a == (allow - {host}) + {} && b == (block - {host}) + {host};
      BackOfMerge(allow - {host}, {});
      BackOfMerge(block - {host}, {host});
    }
  }

  lemma OneForm(host: string)
    ensures TrimmedForms({host}) == if Trim(host) == "" then {} else {Trim(host)}
  {
    hide Trim;
  }

  /** A validated host that is not its own trimmed form. */
  lemma TabHost()
    ensures ValidHost("\tx") && Trim("\tx") == "x" && "\tx" != "x" && Trimmed("x")
  {
    var h := "\tx";
    assert h[1..] == "x" && h[1..2] == "x" && Utf8Len("x") == 1;
    TrimUnique(h, 1, 2);
  }

  /** Blocking it while the plain host is allowed leaves the plain host on both lists, by a
      direct decision ... */
  lemma AddUrlOnBothLists()
    ensures ValidHost("\tx")
    ensures var (a, b) := AddUrl({"x"}, {}, "\tx", Block); "x" in ReadBack(a) && "x" in ReadBack(b)
  {
    TabHost();
    TrimOfTrimmed("x");
    hide Trim, ValidHost;
    var (a, b) := AddUrl({"x"}, {}, "\tx", Block);
    assert "x" in a && "\tx" in b;
  }

  /** ... and by a session write. */
  lemma SessionWriteOnBothLists()
    ensures ValidHost("\tx")
    ensures var allow, block, A, B: set<string> := {"x"}, {}, {}, {"\tx"};
            "x" in ReadBack((allow + A) - B) && "x" in ReadBack((block - A) + B)
  {
    TabHost();
    TrimOfTrimmed("x");
    hide Trim, ValidHost;
    var allow, block, A, B: set<string> := {"x"}, {}, {}, {"\tx"};
    assert "x" in (allow + A) - B && "\tx" in (block - A) + B;
  }
}
