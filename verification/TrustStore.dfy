/** The trust store of one daemon: the texts on disk and the session layer, per user, and the
    operations that move decisions between them when no other writer interferes. */
module TrustStore {
  import opened Sets
  import opened Text
  import opened TrustFiles
  import opened SessionWrite

  type Uid = nat

  /** The three files of a user; a missing one reads like an empty one. */
  datatype Texts = Texts(atoms: string, urls: string, trust: string)

  /** The files of a user, as the readers return them. */
  datatype Disk = Disk(atoms: set<string>, allow: set<string>, block: set<string>, trust: set<string>)

  datatype Session = Session(atoms: set<string>, allow: set<string>, block: set<string>, trust: set<string>)

  const NO_FILES := Texts("", "", "")
  const NO_SESSION := Session({}, {}, {}, {})

  ghost function Seen(t: Texts): Disk {
    Disk(AtomsIn(t.atoms), HostsIn(t.urls, "allow"), HostsIn(t.urls, "block"), TrustIn(t.trust))
  }

  // ----- writing -------------------------------------------------------------------

  /** The header of a file and the metadata behind each of its entries. */
  datatype Form = Form(header: seq<string>, meta: string)

  datatype Forms = Forms(atoms: Form, urls: Form, trust: Form)

  ghost predicate ProperForm(w: Form) { IsHeader(w.header) && IsLine(w.meta) }

  ghost predicate Proper(w: Forms) { ProperForm(w.atoms) && ProperForm(w.urls) && ProperForm(w.trust) }

  /** Entries that fit on a line of their own. */
  ghost predicate Plain(entries: set<string>) {
    forall a :: a in entries ==> '\n' !in a && !HasSpaceHash(a)
  }

  lemma PlainIsWritable(entries: set<string>, order: seq<string>)
    requires Plain(entries) && Elements(order) == entries
    ensures Writable(order)
  {
    hide HasSpaceHash;
    forall i | 0 <= i < |order| ensures '\n' !in order[i] && !HasSpaceHash(order[i]) {
      assert order[i] in Elements(order);
    }
  }

  /** Some order of the entries; the source sorts them. */
  method Listing(entries: set<string>) returns (order: seq<string>)
    ensures Elements(order) == entries
  {
    order := [];
    var todo := entries;
    while todo != {}
      invariant todo <= entries && Elements(order) == entries - todo
    {
      var x :| x in todo;
      assert Elements(order + [x]) == Elements(order) + {x};
      order, todo := order + [x], todo - {x};
    }
  }

  /** Whatever these three write, the readers return as stated. */
  method SaveAtoms(w: Form, atoms: set<string>) returns (content: string)
    requires ProperForm(w) && Plain(atoms)
    ensures AtomsIn(content) == ReadBack(atoms)
  {
    hide IsHeader, IsLine, Plain, Writable, AtomsIn, ReadBack, AtomsFile;
    var order := Listing(atoms);
    PlainIsWritable(atoms, order);
    content := WriteAtomsFile(w.header, order, w.meta);
    AtomsFileReadsBack(w.header, order, w.meta);
  }

  method SaveUrls(w: Form, allow: set<string>, block: set<string>) returns (content: string)
    requires ProperForm(w) && Plain(allow) && Plain(block)
    ensures HostsIn(content, "allow") == ReadBack(allow) && HostsIn(content, "block") == ReadBack(block)
  {
    hide IsHeader, IsLine, Plain, Writable, HostsIn, ReadBack, UrlsFile;
    var a := Listing(allow);
    var b := Listing(block);
    PlainIsWritable(allow, a);
    PlainIsWritable(block, b);
    content := WriteUrlsFile(w.header, a, b, w.meta);
    UrlsFileReadsBack(w.header, a, b, w.meta);
  }

  method SaveTrust(w: Form, hashes: set<string>) returns (content: string)
    requires ProperForm(w) && forall h :: h in hashes ==> ValidTrustHash(h)
    ensures TrustIn(content) == hashes
  {
    hide IsHeader, IsLine, ValidTrustHash, TrustIn, AtomsFile;
    var order := Listing(hashes);
    forall i | 0 <= i < |order| ensures ValidTrustHash(order[i]) {
      assert order[i] in Elements(order);
    }
    content := WriteAtomsFile(w.header, order, w.meta);
    TrustRoundTrip(w.header, order, w.meta);
  }

  /** `validate_atom`. */
  function AtomCheck(placeholder: string -> bool): string -> bool {
    a => ValidAtom(placeholder, a)
  }

  lemma StoredAtomsArePlain(content: string, placeholder: string -> bool, session: set<string>)
    ensures Plain(AtomsIn(content) + ValidOnes(AtomCheck(placeholder), session))
  {
    hide Body, HasSpaceHash, Lines, Trimmed, Utf8Len;
    LinesHaveNoNewline(content);
    forall a | a in AtomsIn(content) ensures '\n' !in a && !HasSpaceHash(a) {
      var l :| l in Lines(content) && Body(l) != "" && Body(l) == a;
      BodyIsWritable(l);
    }
    forall a | a in ValidOnes(AtomCheck(placeholder), session) ensures '\n' !in a && !HasSpaceHash(a) {
      assert ValidAtom(placeholder, a);
    }
  }

  lemma StoredHostsArePlain(content: string, verb: string, hosts: set<string>)
    requires AllValid(hosts)
    ensures Plain(HostsIn(content, verb) + hosts)
  {
    hide HasSpaceHash, Trimmed, HostsIn, ValidHost;
    forall h | h in HostsIn(content, verb) + hosts ensures '\n' !in h && !HasSpaceHash(h) {
      if h in HostsIn(content, verb) {
        ReadHostIsWritable(content, verb, h);
      } else {
        ValidHostPlain(h);
      }
    }
  }

  lemma PlainSubset(a: set<string>, b: set<string>)
    requires Plain(b) && a <= b
    ensures Plain(a)
  {
    hide HasSpaceHash;
  }

  // ----- the phases of a session write -----------------------------------------------

  /** Which of the I/O steps of `session_write` succeed. */
  datatype Io = Io(atomsRead: bool, atomsWrite: bool, urlsRead: bool, urlsWrite: bool,
                   trustRead: bool, trustWrite: bool, reload: bool)

  /** What was persisted, and what stays behind. */
  datatype Report = Report(atoms: set<string>, allow: set<string>, block: set<string>, trust: set<string>,
                           invalid: seq<string>, blocked: seq<string>)

  const NOTHING := Report({}, {}, {}, {}, [], [])

  /** The files after the atoms were stored: unchanged when there was nothing new. */
  ghost function AfterAtoms(f: Disk, atoms: set<string>): Disk {
    if atoms <= f.atoms then f else f.(atoms := ReadBack(f.atoms + atoms))
  }

  /** Both counters of the URL loops are zero. */
  ghost predicate NothingNew(f: Disk, allow: set<string>, block: set<string>) {
    allow <= f.allow && block <= f.block - allow
  }

  ghost function AfterUrls(f: Disk, allow: set<string>, block: set<string>): Disk {
    if NothingNew(f, allow, block) then f
    else f.(allow := ReadBack((f.allow + allow) - block), block := ReadBack((f.block - allow) + block))
  }

  ghost function AfterTrust(f: Disk, trust: set<string>): Disk {
    f.(trust := f.trust + trust)
  }

  function Without(s: Session, r: Report): Session {
    Session(s.atoms - r.atoms, s.allow - r.allow, s.block - r.block, s.trust - r.trust)
  }

  lemma ZeroMeansWithin(a: set<string>, b: set<string>)
    ensures |a - b| == 0 <==> a <= b
  {
    if |a - b| == 0 { forall x | x in a ensures x in b { assert x !in a - b; } }
    if a <= b { assert a - b == {}; }
  }

  // Whether a phase gets through: it has nothing to do, or it can read the file and, when
  // there is something new, write it.

  ghost predicate AtomsPass(f: Disk, session: set<string>, valid: string -> bool, io: Io) {
    session == {} || (io.atomsRead && (ValidOnes(valid, session) <= f.atoms || io.atomsWrite))
  }

  ghost predicate UrlsPass(f: Disk, allow: set<string>, block: set<string>, io: Io) {
    (allow == {} && block == {}) || (io.urlsRead && (NothingNew(f, Hosts(allow), Hosts(block)) || io.urlsWrite))
  }

  ghost predicate TrustPass(f: Disk, session: set<string>, io: Io) {
    session == {} || (io.trustRead && (NewHashes(f.trust, session) == 0 || io.trustWrite))
  }

  /** How many hashes are stored: the new valid ones, as far as there is room. */
  ghost function NewHashes(file: set<string>, session: set<string>): int {
    Min(|ValidHashes(session) - file|, Room(file))
  }

  /** Stores the session's atoms; on an I/O failure the files stay as they are. */
  method AtomsPhase(t: Texts, placeholder: string -> bool, session: set<string>, io: Io, w: Form)
    returns (ok: bool, t': Texts, persisted: set<string>, invalid: seq<string>)
    requires ProperForm(w)
    ensures ok <==> AtomsPass(Seen(t), session, AtomCheck(placeholder), io)
    ensures ok ==> persisted == ValidOnes(AtomCheck(placeholder), session)
    ensures ok ==> Seen(t') == AfterAtoms(Seen(t), persisted) && Lists(invalid, session - persisted)
    ensures !ok ==> t' == t
    ensures t'.urls == t.urls && t'.trust == t.trust
  {
    hide ValidAtom, AtomsIn, HostsIn, TrustIn, ReadBack, ProperForm;
    persisted, invalid := {}, [];
    if session == {} {
      return true, t, persisted, invalid;
    }
    if !io.atomsRead {
      return false, t, persisted, invalid;
    }
    var before := ReadAtomsFile(t.atoms);
    var existing, added;
    existing, persisted, invalid, added := PersistAtoms(AtomCheck(placeholder), session, before);
    ZeroMeansWithin(persisted, before);
    if added == 0 {
      return true, t, persisted, invalid;
    }
    if !io.atomsWrite {
      return false, t, persisted, invalid;
    }
    StoredAtomsArePlain(t.atoms, placeholder, session);
    hide ValidOnes, Plain, AtomCheck;
    var content := SaveAtoms(w, existing);
    return true, t.(atoms := content), persisted, invalid;
  }

  /** Stores the session's URL decisions. */
  method UrlsPhase(t: Texts, allow: set<string>, block: set<string>, io: Io, w: Form)
    returns (ok: bool, t': Texts, pAllow: set<string>, pBlock: set<string>, invalid: seq<string>)
    requires ProperForm(w)
    ensures ok <==> UrlsPass(Seen(t), allow, block, io)
    ensures ok ==> pAllow == Hosts(allow) && pBlock == Hosts(block) && Seen(t') == AfterUrls(Seen(t), pAllow, pBlock)
    ensures ok ==> && (forall h :: h in invalid <==> h in allow - pAllow || h in block - pBlock)
                   && |invalid| == |allow - pAllow| + |block - pBlock|
    ensures !ok ==> t' == t
    ensures t'.atoms == t.atoms && t'.trust == t.trust
  {
    pAllow, pBlock, invalid := {}, {}, [];
    NoUrls(Seen(t));
    hide Hosts, ValidHost, AtomsIn, HostsIn, TrustIn, ReadBack, ProperForm, AfterUrls, NothingNew;
    if allow == {} && block == {} {
      return true, t, pAllow, pBlock, invalid;
    }
    if !io.urlsRead {
      return false, t, pAllow, pBlock, invalid;
    }
    var allow0, block0 := ReadUrlsFile(t.urls);
    var a, b, n, m;
    a, b, pAllow, pBlock, invalid, n, m := PersistUrls(allow, block, allow0, block0);
    CountersTell(Seen(t), pAllow, pBlock);
    if n == 0 && m == 0 {
      return true, t, pAllow, pBlock, invalid;
    }
    if !io.urlsWrite {
      return false, t, pAllow, pBlock, invalid;
    }
    MergedArePlain(t.urls, allow, block);
    var content := SaveUrls(w, a, b);
    return true, t.(urls := content), pAllow, pBlock, invalid;
  }

  lemma CountersTell(f: Disk, allow: set<string>, block: set<string>)
    ensures |allow - f.allow| == 0 && |block - (f.block - allow)| == 0 <==> NothingNew(f, allow, block)
    ensures if |allow - f.allow| == 0 && |block - (f.block - allow)| == 0 then AfterUrls(f, allow, block) == f
            else AfterUrls(f, allow, block) ==
                 f.(allow := ReadBack((f.allow + allow) - block), block := ReadBack((f.block - allow) + block))
  {
    ZeroMeansWithin(allow, f.allow);
    ZeroMeansWithin(block, f.block - allow);
    hide ReadBack;
  }

  lemma MergedArePlain(content: string, allow: set<string>, block: set<string>)
    ensures Plain((HostsIn(content, "allow") + Hosts(allow)) - Hosts(block))
    ensures Plain((HostsIn(content, "block") - Hosts(allow)) + Hosts(block))
  {
    hide HostsIn, ValidHost, Plain;
    var a, b := HostsIn(content, "allow"), HostsIn(content, "block");
    var A, B := Hosts(allow), Hosts(block);
    assert AllValid(A) && AllValid(B);
    hide Hosts;
    StoredHostsArePlain(content, "allow", A);
    StoredHostsArePlain(content, "block", B);
    PlainSubset((a + A) - B, a + A);
    PlainSubset((b - A) + B, b + B);
  }

  lemma NoUrls(f: Disk)
    ensures Hosts({}) == {} && AfterUrls(f, {}, {}) == f
  {
  }

  /** Stores the session's trust hashes, as many as the cap leaves room for. */
  method TrustPhase(t: Texts, session: set<string>, io: Io, w: Form)
    returns (ok: bool, t': Texts, persisted: set<string>, invalid: seq<string>, blocked: seq<string>)
    requires ProperForm(w)
    ensures ok <==> TrustPass(Seen(t), session, io)
    ensures ok ==> && persisted <= ValidHashes(session) && Seen(t') == AfterTrust(Seen(t), persisted)
                   && ValidHashes(session) * TrustIn(t.trust) <= persisted
                   && Lists(invalid, session - ValidHashes(session)) && Lists(blocked, ValidHashes(session) - persisted)
                   && |TrustIn(t'.trust)| == |TrustIn(t.trust)| + NewHashes(TrustIn(t.trust), session)
    ensures !ok ==> t' == t
    ensures |TrustIn(t'.trust)| <= Max(PERSISTENT_TRUST_CAP, |TrustIn(t.trust)|)
    ensures t'.atoms == t.atoms && t'.urls == t.urls
  {
    persisted, invalid, blocked := {}, [], [];
    var before := ReadTrustFile(t.trust);
    assert forall h :: h in before ==> ValidTrustHash(h);
    hide AtomsIn, HostsIn, TrustIn, ProperForm, ValidTrustHash;
    if session == {} {
      assert ValidHashes(session) == {} && ValidHashes(session) - before == {} && before + {} == before;
      return true, t, persisted, invalid, blocked;
    }
    if !io.trustRead {
      return false, t, persisted, invalid, blocked;
    }
    var existing, added;
    existing, persisted, invalid, blocked, added := PersistTrust(session, before);
    if added == 0 {
      assert existing == before by { SubsetSize(before, existing); }
      return true, t, persisted, invalid, blocked;
    }
    if !io.trustWrite {
      return false, t, persisted, invalid, blocked;
    }
    var content := SaveTrust(w, existing);
    return true, t.(trust := content), persisted, invalid, blocked;
  }

  // ----- the whole write ---------------------------------------------------------------

  /** The files after the phases that got through. */
  ghost predicate FilesLeft(f: Disk, s: Session, valid: string -> bool, io: Io, f': Disk) {
    var f1 := AfterAtoms(f, ValidOnes(valid, s.atoms));
    var f2 := AfterUrls(f1, Hosts(s.allow), Hosts(s.block));
    if !AtomsPass(f, s.atoms, valid, io) then f' == f
    else if !UrlsPass(f1, s.allow, s.block, io) then f' == f1
    else if !TrustPass(f2, s.trust, io) then f' == f2
    else
      && f' == f2.(trust := f'.trust) && f.trust <= f'.trust <= f.trust + ValidHashes(s.trust)
      && |f'.trust| == |f.trust| + NewHashes(f.trust, s.trust)
  }

  ghost predicate AllPass(f: Disk, s: Session, valid: string -> bool, io: Io) {
    var f1 := AfterAtoms(f, ValidOnes(valid, s.atoms));
    var f2 := AfterUrls(f1, Hosts(s.allow), Hosts(s.block));
    AtomsPass(f, s.atoms, valid, io) && UrlsPass(f1, s.allow, s.block, io) && TrustPass(f2, s.trust, io)
  }

  /** What `session_write` does with given I/O outcomes: when it succeeds, what the files are
      after success and after a failure at any step, and what the session keeps. */
  ghost predicate Moved(f: Disk, s: Session, valid: string -> bool, io: Io,
                        ok: bool, f': Disk, s': Session, r: Report) {
    && (ok <==> AllPass(f, s, valid, io) && io.reload)
    && FilesLeft(f, s, valid, io, f')
    && |f'.trust| <= Max(16384, |f.trust|)
    && s' == (if ok then Without(s, r) else s)
    && s.trust <= s'.trust + f'.trust
    && (ok ==>
          && r.atoms == ValidOnes(valid, s.atoms) && r.allow == Hosts(s.allow) && r.block == Hosts(s.block)
          && r.trust == ValidHashes(s.trust) * f'.trust && Lists(r.blocked, ValidHashes(s.trust) - r.trust)
          && Skipped(s, r, ValidHashes(s.trust)))
  }

  /** The report names exactly the invalid entries of every kind, none of them twice. */
  ghost predicate Skipped(s: Session, r: Report, hashes: set<string>) {
    && (forall x :: x in r.invalid <==>
          || x in s.atoms - r.atoms || x in s.allow - r.allow
          || x in s.block - r.block || x in s.trust - hashes)
    && |r.invalid| == |s.atoms - r.atoms| + |s.allow - r.allow| + |s.block - r.block| + |s.trust - hashes|
  }

  lemma SkippedInAll(s: Session, r: Report, hashes: set<string>, i1: seq<string>, i2: seq<string>, i3: seq<string>)
    requires r.invalid == i1 + i2 + i3 && Lists(i1, s.atoms - r.atoms) && Lists(i3, s.trust - hashes)
    requires forall h :: h in i2 <==> h in s.allow - r.allow || h in s.block - r.block
    requires |i2| == |s.allow - r.allow| + |s.block - r.block|
    ensures Skipped(s, r, hashes)
  {
  }

  /** Moves the session to disk. A failed step stops it with the session untouched and the
      files written so far in place; entries leave the session only when every step
      succeeded, and only those that were stored. */
  method Move(t: Texts, s: Session, placeholder: string -> bool, io: Io, w: Forms)
    returns (ok: bool, t': Texts, s': Session, r: Report)
    requires Proper(w)
    ensures Moved(Seen(t), s, AtomCheck(placeholder), io, ok, Seen(t'), s', r)
  {
    hide Skipped, ValidOnes, Hosts, ValidHashes, Lists, NewHashes, AfterAtoms, AfterUrls, AtomCheck, ProperForm;
    hide AtomsIn, HostsIn, TrustIn, AtomsPass, UrlsPass, TrustPass;
    r := NOTHING;
    var done, t1, atoms, inv1 := AtomsPhase(t, placeholder, s.atoms, io, w.atoms);
    if !done {
      return false, t1, s, r;
    }
    var t2, allow, block, inv2;
    done, t2, allow, block, inv2 := UrlsPhase(t1, s.allow, s.block, io, w.urls);
    if !done {
      return false, t2, s, r;
    }
    var t3, trust, inv3, blocked;
    done, t3, trust, inv3, blocked := TrustPhase(t2, s.trust, io, w.trust);
    r := Report(atoms, allow, block, trust, inv1 + inv2 + inv3, blocked);
    if !done || !io.reload {
      return false, t3, s, r;
    }
    SkippedInAll(s, r, ValidHashes(s.trust), inv1, inv2, inv3);
    return true, t3, Without(s, r), r;
  }

  // ----- the same, entry by entry ---------------------------------------------------------

  /** Every valid one of these is in the file already. */
  ghost predicate NoNewAtom(placeholder: string -> bool, session: set<string>, before: set<string>) {
    forall a :: a in session && ValidAtom(placeholder, a) ==> a in before
  }

  /** `x` is what a file keeps of a valid one of these. */
  ghost predicate FromAtoms(placeholder: string -> bool, session: set<string>, x: string) {
    exists a :: a in session && ValidAtom(placeholder, a) && Trim(a) == x && x != ""
  }

  /** Whether the atoms phase gets through, and what the atoms file reads as after the whole
      call, whatever happens in the later phases. */
  lemma AtomsAfterMove(t: Texts, s: Session, placeholder: string -> bool, io: Io,
                       ok: bool, t': Texts, s': Session, r: Report)
    requires Moved(Seen(t), s, AtomCheck(placeholder), io, ok, Seen(t'), s', r)
    ensures var before, after := AtomsIn(t.atoms), AtomsIn(t'.atoms);
            var nothingNew := NoNewAtom(placeholder, s.atoms, before);
            if s.atoms == {} || (io.atomsRead && (nothingNew || io.atomsWrite)) then
              forall x :: x in after <==>
                (x in before && (nothingNew || !Hashed(x))) || FromAtoms(placeholder, s.atoms, x)
            else after == before
  {
    var f, f', check := Seen(t), Seen(t'), AtomCheck(placeholder);
    AtomsReadAreTrimmed(t.atoms);
    MovedAtoms(f, s, check, io, ok, f', s', r);
    assert f.atoms == AtomsIn(t.atoms) && f'.atoms == AtomsIn(t'.atoms);
    hide Moved, Seen, AtomsIn;
    var valid := ValidOnes(check, s.atoms);
    ValidAtomsMean(placeholder, s.atoms, f.atoms);
    hide ValidOnes, AtomCheck, NoNewAtom, FromAtoms;
    AfterAtomsMeans(f, valid);
    hide AfterAtoms;
  }

  lemma MovedAtoms(f: Disk, s: Session, valid: string -> bool, io: Io, ok: bool, f': Disk, s': Session, r: Report)
    requires Moved(f, s, valid, io, ok, f', s', r)
    ensures f'.atoms ==
            if AtomsPass(f, s.atoms, valid, io) then AfterAtoms(f, ValidOnes(valid, s.atoms)).atoms else f.atoms
  {
    hide ValidOnes, Hosts, ValidHashes, ReadBack, NewHashes, AtomsPass, UrlsPass, TrustPass, Lists, Skipped;
  }

  lemma ValidAtomsMean(placeholder: string -> bool, session: set<string>, before: set<string>)
    ensures var valid := ValidOnes(AtomCheck(placeholder), session);
            && (valid <= before <==> NoNewAtom(placeholder, session, before))
            && (forall a :: a in valid ==> a != "" && a[0] != '#')
            && forall x :: FromAtoms(placeholder, session, x) <==> exists a :: a in valid && Trim(a) == x && x != ""
  {
    forall a | ValidAtom(placeholder, a) ensures a != "" && a[0] != '#' {}
    hide ValidAtom, Trim;
    var valid := ValidOnes(AtomCheck(placeholder), session);
    assert forall a :: a in valid <==> a in session && ValidAtom(placeholder, a);
  }

  lemma AfterAtomsMeans(f: Disk, atoms: set<string>)
    requires ReadEntries(f.atoms) && forall a :: a in atoms ==> a != "" && a[0] != '#'
    ensures forall x :: x in AfterAtoms(f, atoms).atoms <==>
              || (x in f.atoms && (atoms <= f.atoms || !Hashed(x)))
              || exists a :: a in atoms && Trim(a) == x && x != ""
  {
    forall x | x in f.atoms ensures x != "" && Trim(x) == x {
      TrimOfTrimmed(x);
    }
    hide Trim, Trimmed;
  }

  /** The hosts of a list that were not taken off it, without those that start with `#`, and
      what a file keeps of the added ones. */
  ghost predicate OnList(x: string, before: set<string>, off: set<string>, added: set<string>) {
    (x in before && x !in off && !Hashed(x)) || exists h :: h in added && Trim(h) == x && x != ""
  }

  /** The same for the URL phase. */
  lemma UrlsAfterMove(t: Texts, s: Session, placeholder: string -> bool, io: Io,
                      ok: bool, t': Texts, s': Session, r: Report)
    requires Moved(Seen(t), s, AtomCheck(placeholder), io, ok, Seen(t'), s', r)
    ensures var f, f' := Seen(t), Seen(t');
            var A, B := set h | h in s.allow && ValidHost(h), set h | h in s.block && ValidHost(h);
            var nothingNew := A <= f.allow && B <= f.block - A;
            var reached := AtomsPass(f, s.atoms, AtomCheck(placeholder), io);
            if reached && !nothingNew && io.urlsRead && io.urlsWrite then
              forall x :: && (x in f'.allow <==> OnList(x, f.allow, B, A - B))
                          && (x in f'.block <==> OnList(x, f.block, A, B))
            else f'.allow == f.allow && f'.block == f.block
  {
    var f, f', check := Seen(t), Seen(t'), AtomCheck(placeholder);
    SeenHostsTrimmed(t);
    var A, B := Hosts(s.allow), Hosts(s.block);
    MovedUrls(f, s, check, io, ok, f', s', r);
    assert AllValid(A) && AllValid(B);
    assert A == (set h | h in s.allow && ValidHost(h)) && B == (set h | h in s.block && ValidHost(h));
    assert s.allow == {} && s.block == {} ==> A == {} && B == {};
    hide *;
    AfterUrlsMeans(f, A, B);
    UrlsPassMeans(f, s.allow, s.block, io);
  }

  lemma UrlsPassMeans(f: Disk, allow: set<string>, block: set<string>, io: Io)
    ensures var A, B := Hosts(allow), Hosts(block);
            !NothingNew(f, A, B) ==> (UrlsPass(f, allow, block, io) <==> io.urlsRead && io.urlsWrite)
    ensures var A, B := Hosts(allow), Hosts(block);
            NothingNew(f, A, B) <==> A <= f.allow && B <= f.block - A
  {
    hide ValidHost;
  }

  lemma AfterUrlsMeans(f: Disk, A: set<string>, B: set<string>)
    requires ReadEntries(f.allow) && ReadEntries(f.block) && AllValid(A) && AllValid(B)
    ensures var g := AfterUrls(f, A, B);
            if NothingNew(f, A, B) then g == f
            else forall x :: && (x in g.allow <==> OnList(x, f.allow, B, A - B))
                             && (x in g.block <==> OnList(x, f.block, A, B))
  {
    hide ReadBack, OnList, ValidHost, Trimmed, NothingNew;
    assert (f.allow + A) - B == (f.allow - B) + (A - B);
    ReadBackMeans(f.allow, B, A - B);
    ReadBackMeans(f.block, A, B);
  }

  lemma MovedUrls(f: Disk, s: Session, valid: string -> bool, io: Io, ok: bool, f': Disk, s': Session, r: Report)
    requires Moved(f, s, valid, io, ok, f', s', r)
    ensures var A, B := Hosts(s.allow), Hosts(s.block);
            if AtomsPass(f, s.atoms, valid, io) && UrlsPass(f, s.allow, s.block, io) then
              f'.allow == AfterUrls(f, A, B).allow && f'.block == AfterUrls(f, A, B).block
            else f'.allow == f.allow && f'.block == f.block
  {
    hide ValidOnes, Hosts, ValidHashes, ReadBack, NewHashes, AtomsPass, TrustPass, Lists, Skipped;
  }

  lemma ReadBackMeans(before: set<string>, off: set<string>, added: set<string>)
    requires ReadEntries(before) && AllValid(added)
    ensures forall x :: x in ReadBack((before - off) + added) <==> OnList(x, before, off, added)
  {
    forall x | x in before ensures x != "" && Trim(x) == x {
      TrimOfTrimmed(x);
    }
    ValidHaveNoHash(added);
    hide Trim, Trimmed, ValidHost;
  }

  /** What leaves the session: after success exactly the valid entries, of the hashes those
      that are in the file; otherwise nothing. */
  lemma SessionAfterMove(t: Texts, s: Session, placeholder: string -> bool, io: Io,
                         ok: bool, t': Texts, s': Session, r: Report)
    requires Moved(Seen(t), s, AtomCheck(placeholder), io, ok, Seen(t'), s', r)
    ensures forall x :: && (x in s'.atoms <==> x in s.atoms && !(ok && ValidAtom(placeholder, x)))
                        && (x in s'.allow <==> x in s.allow && !(ok && ValidHost(x)))
                        && (x in s'.block <==> x in s.block && !(ok && ValidHost(x)))
                        && (x in s'.trust <==> x in s.trust && !(ok && ValidTrustHash(x) && x in TrustIn(t'.trust)))
  {
    hide ValidAtom, ValidHost, ValidTrustHash, AtomsIn, HostsIn, TrustIn, FilesLeft, AllPass, Lists, Skipped;
  }

  /** With working I/O the write succeeds; a needed read or the reload that fails makes it
      fail. */
  lemma MoveSucceeds(f: Disk, s: Session, valid: string -> bool, io: Io, ok: bool, f': Disk, s': Session, r: Report)
    requires Moved(f, s, valid, io, ok, f', s', r)
    ensures io == Io(true, true, true, true, true, true, true) ==> ok
    ensures ok ==> && io.reload && (s.atoms != {} ==> io.atomsRead) && (s.allow != {} || s.block != {} ==> io.urlsRead)
                   && (s.trust != {} ==> io.trustRead)
  {
    hide ValidOnes, Hosts, ValidHashes, ReadBack, FilesLeft, Lists, Skipped;
  }

  // ----- what becomes of the URL lists ---------------------------------------------------

  lemma SeenHostsTrimmed(t: Texts)
    ensures ReadEntries(Seen(t).allow) && ReadEntries(Seen(t).block)
  {
    HostsReadAreTrimmed(t.urls, "allow");
    HostsReadAreTrimmed(t.urls, "block");
    hide HostsIn, ReadEntries;
  }

  /** From disjoint lists on disk and any validated session hosts, the lists are disjoint on
      disk after `session_write` exactly when the trimmed forms of the new hosts meet nothing
      that stays on the other list; a skipped write is such a case. */
  lemma UrlsDisjointOnDiskIff(t: Texts, allow: set<string>, block: set<string>)
    requires AllValid(allow) && AllValid(block) && Seen(t).allow !! Seen(t).block
    ensures var f, f' := Seen(t), AfterUrls(Seen(t), allow, block);
            f'.allow !! f'.block <==>
              && TrimmedForms(allow - block) !! (f.block - allow) + TrimmedForms(block)
              && TrimmedForms(block) !! f.allow - block
  {
    SeenHostsTrimmed(t);
    var f := Seen(t);
    hide Seen, TrimmedForms, ReadBack, ValidHost, Trimmed;
    if NothingNew(f, allow, block) {
      OnDiskIsTrimmed(f.allow, allow);
      OnDiskIsTrimmed(f.block, block);
      SubsetForms(allow - block, allow);
    } else {
      DisjointOnDiskIff(f.allow, f.block, allow, block);
    }
  }

  lemma OnDiskIsTrimmed(read: set<string>, hosts: set<string>)
    requires ReadEntries(read) && hosts <= read
    ensures TrimmedForms(hosts) == hosts
  {
    forall h | h in hosts ensures Trim(h) == h && h != "" {
      TrimOfTrimmed(h);
    }
    hide Trim, Trimmed;
  }

  lemma SubsetForms(a: set<string>, b: set<string>)
    requires a <= b
    ensures TrimmedForms(a) <= TrimmedForms(b)
  {
    hide Trim;
  }

  /** From disjoint lists on disk and any validated session hosts, the files end up as the set
      algebra says exactly when there was nothing to write, or every session host is trimmed
      and no host on disk starts with `#`. */
  lemma UrlsExactOnDiskIff(t: Texts, allow: set<string>, block: set<string>)
    requires AllValid(allow) && AllValid(block) && Seen(t).allow !! Seen(t).block
    ensures var f, f' := Seen(t), AfterUrls(Seen(t), allow, block);
            f'.allow == (f.allow + allow) - block && f'.block == (f.block - allow) + block <==>
              NothingNew(f, allow, block) || (AllTrimmed(allow + block) && NoHash(f.allow + f.block))
  {
    SeenHostsTrimmed(t);
    var f := Seen(t);
    hide Seen, ReadBack, ValidHost, Trimmed, AllTrimmed, NoHash;
    if NothingNew(f, allow, block) {
      assert (f.allow + allow) - block == f.allow && (f.block - allow) + block == f.block;
    } else {
      ExactOnDiskIff(f.allow, f.block, allow, block);
    }
  }

  // ----- the store -------------------------------------------------------------------------

  /** Which of the I/O steps of a direct add succeed. */
  datatype Access = Access(read: bool, write: bool, reload: bool)

  class Store {
    var disk: map<Uid, Texts>
    var sessions: map<Uid, Session>

    constructor (files: map<Uid, Texts>)
      ensures disk == files && sessions == map[]
    {
      disk, sessions := files, map[];
    }

    function TextsOf(uid: Uid): Texts
      reads this
    {
      if uid in disk then disk[uid] else NO_FILES
    }

    ghost function Files(uid: Uid): Disk
      reads this
    {
      Seen(TextsOf(uid))
    }

    function Pending(uid: Uid): Session
      reads this
    {
      if uid in sessions then sessions[uid] else NO_SESSION
    }

    method SessionAddTrust(uid: Uid, hash: string) returns (ok: bool)
      modifies this`sessions
      ensures ok <==> ValidTrustHash(hash) &&
                      (|old(Pending(uid)).trust| < 4096 || hash in old(Pending(uid)).trust)
      ensures Pending(uid) == if ok then old(Pending(uid)).(trust := old(Pending(uid)).trust + {hash})
                              else old(Pending(uid))
      ensures forall u :: u != uid ==> Pending(u) == old(Pending(u))
    {
      if !ValidTrustHash(hash) {
        return false;
      }
      var e := Pending(uid);
      sessions := sessions[uid := e];
      if |e.trust| >= SESSION_PER_KIND_CAP && hash !in e.trust {
        return false;
      }
      sessions := sessions[uid := e.(trust := e.trust + {hash})];
      return true;
    }

    /** A hash already there is accepted as it is; a failed reload reports an error although
        the file has the hash. */
    method PersistentAddTrust(uid: Uid, hash: string, io: Access, w: Form) returns (ok: bool)
      requires ProperForm(w)
      modifies this`disk
      ensures var f := old(Files(uid));
              var stored := ValidTrustHash(hash) && io.read && hash !in f.trust
                            && |f.trust| < 16384 && io.write;
              && (ok <==> (ValidTrustHash(hash) && io.read && hash in f.trust) || (stored && io.reload))
              && Files(uid) == if stored then f.(trust := f.trust + {hash}) else f
      ensures forall u :: u != uid ==> Files(u) == old(Files(u))
    {
      if !ValidTrustHash(hash) || !io.read {
        return false;
      }
      var t := TextsOf(uid);
      var existing := ReadTrustFile(t.trust);
      if hash in existing {
        return true;
      }
      if |existing| >= PERSISTENT_TRUST_CAP || !io.write {
        return false;
      }
      assert forall h :: h in existing + {hash} ==> ValidTrustHash(h);
      hide ValidTrustHash, TrustIn, ProperForm, AtomsIn, HostsIn;
      var content := SaveTrust(w, existing + {hash});
      disk := disk[uid := t.(trust := content)];
      return io.reload;
    }

    /** The host leaves both lists and joins one; a failed reload reports an error although
        the decision is in the file. */
    method PersistentAddUrl(uid: Uid, host: string, d: Decision, io: Access, w: Form) returns (ok: bool)
      requires ProperForm(w)
      modifies this`disk
      ensures var f := old(Files(uid));
              var r := AddUrl(f.allow, f.block, host, d);
              var stored := ValidHost(host) && io.read && io.write;
              && (ok <==> stored && io.reload)
              && Files(uid) == (if stored then f.(allow := ReadBack(r.0), block := ReadBack(r.1)) else f)
              && forall h :: h != host && h != Trim(host) && !Hashed(h) ==>
                   (h in Files(uid).allow <==> h in f.allow) && (h in Files(uid).block <==> h in f.block)
      ensures forall u :: u != uid ==> Files(u) == old(Files(u))
    {
      if !ValidHost(host) || !io.read || !io.write {
        return false;
      }
      var t := TextsOf(uid);
      var allow, block := ReadUrlsFile(t.urls);
      var r := AddUrl(allow, block, host, d);
      AddedArePlain(t.urls, host, d);
      UrlsOthersStay(t.urls, host, d);
      hide ValidHost, ProperForm, AtomsIn, HostsIn, TrustIn, ReadBack, Plain, AddUrl;
      var content := SaveUrls(w, r.0, r.1);
      disk := disk[uid := t.(urls := content)];
      return io.reload;
    }

    /** A user without a session entry is done at once, without any I/O. */
    method SessionWrite(uid: Uid, placeholder: string -> bool, io: Io, w: Forms) returns (ok: bool, r: Report)
      requires Proper(w)
      modifies this
      ensures forall u :: u != uid ==> Files(u) == old(Files(u)) && Pending(u) == old(Pending(u))
      ensures if uid in old(sessions) then
                Moved(old(Files(uid)), old(Pending(uid)), AtomCheck(placeholder), io, ok, Files(uid), Pending(uid), r)
              else
                ok && r == NOTHING && disk == old(disk) && sessions == old(sessions)
    {
      hide Moved, Seen, Proper;
      if uid !in sessions {
        return true, NOTHING;
      }
      var t', s';
      ok, t', s', r := Move(TextsOf(uid), Pending(uid), placeholder, io, w);
      disk := disk[uid := t'];
      sessions := sessions[uid := s'];
    }
  }

  lemma UrlsOthersStay(content: string, host: string, d: Decision)
    requires ValidHost(host)
    ensures var a, b := HostsIn(content, "allow"), HostsIn(content, "block");
            var r := AddUrl(a, b, host, d);
            forall h :: h != host && h != Trim(host) && !Hashed(h) ==>
              (h in ReadBack(r.0) <==> h in a) && (h in ReadBack(r.1) <==> h in b)
  {
    var a, b := HostsIn(content, "allow"), HostsIn(content, "block");
    HostsReadAreTrimmed(content, "allow");
    HostsReadAreTrimmed(content, "block");
    var r := AddUrl(a, b, host, d);
    hide HostsIn, ReadBack, ValidHost, Trim, Trimmed, AddUrl;
    forall h | h != host && h != Trim(host) && !Hashed(h)
      ensures (h in ReadBack(r.0) <==> h in a) && (h in ReadBack(r.1) <==> h in b)
    {
      OthersKeepTheirList(a, b, host, d, h);
    }
  }

  lemma AddedArePlain(content: string, host: string, d: Decision)
    requires ValidHost(host)
    ensures var r := AddUrl(HostsIn(content, "allow"), HostsIn(content, "block"), host, d); Plain(r.0) && Plain(r.1)
  {
    var a, b := HostsIn(content, "allow"), HostsIn(content, "block");
    assert AllValid({host});
    hide HostsIn, ValidHost, Plain, AllValid;
    StoredHostsArePlain(content, "allow", {host});
    StoredHostsArePlain(content, "block", {host});
    var r := AddUrl(a, b, host, d);
    PlainSubset(r.0, a + {host});
    PlainSubset(r.1, b + {host});
  }
}
