/** Slot accounting in the server: the request counter with its RAII guard, the bounded
    subscriber slots, and every interleaving of accept, reject, upgrade, return and panic.

    The accept loop is one thread. Each atomic operation and each locked section is one step;
    returning, failing and panicking all run the same drops, one by one. */
module Slots {

  const MAX_TOTAL: nat := 16
  const MAX_PER_UID: nat := 4
  const USIZE_MAX: nat := 0xffff_ffff_ffff_ffff

  type Uid = nat
  type Cid = nat

  // ----- subscriber slots ------------------------------------------------------------

  datatype Counts = Counts(total: nat, perUid: map<Uid, nat>)

  function CountOf(perUid: map<Uid, nat>, uid: Uid): nat { if uid in perUid then perUid[uid] else 0 }

  function SaturatingSub1(n: nat): nat { if n == 0 then 0 else n - 1 }

  predicate HasRoom(c: Counts, uid: Uid) { c.total < MAX_TOTAL && CountOf(c.perUid, uid) < MAX_PER_UID }

  function Acquired(c: Counts, uid: Uid): Counts {
    if c.total >= MAX_TOTAL then c
    else if CountOf(c.perUid, uid) >= MAX_PER_UID then c.(perUid := c.perUid[uid := CountOf(c.perUid, uid)])
    else Counts(c.total + 1, c.perUid[uid := CountOf(c.perUid, uid) + 1])
  }

  function Released(c: Counts, uid: Uid): Counts {
    var total := SaturatingSub1(c.total);
    if uid !in c.perUid then Counts(total, c.perUid)
    else if SaturatingSub1(c.perUid[uid]) == 0 then Counts(total, c.perUid - {uid})
    else Counts(total, c.perUid[uid := SaturatingSub1(c.perUid[uid])])
  }

  class SubscriberSlots {
    var total: nat
    var perUid: map<Uid, nat>

    ghost function Now(): Counts
      reads this
    {
      Counts(total, perUid)
    }

    constructor ()
      ensures Now() == Counts(0, map[])
    {
      total, perUid := 0, map[];
    }

    method TryAcquire(uid: Uid) returns (granted: bool)
      modifies this
      ensures granted == HasRoom(old(Now()), uid) && Now() == Acquired(old(Now()), uid)
    {
      if total >= MAX_TOTAL {
        return false;
      }
      if uid !in perUid {
        perUid := perUid[uid := 0];
      }
      if perUid[uid] >= MAX_PER_UID {
        return false;
      }
      perUid := perUid[uid := perUid[uid] + 1];
      total := total + 1;
      return true;
    }

    method Release(uid: Uid)
      modifies this
      ensures Now() == Released(old(Now()), uid)
    {
      total := if total == 0 then 0 else total - 1;
      if uid in perUid {
        perUid := perUid[uid := if perUid[uid] == 0 then 0 else perUid[uid] - 1];
        if perUid[uid] == 0 {
          perUid := perUid - {uid};
        }
      }
    }
  }

  // ----- the request counter ---------------------------------------------------------

  /** fetch_sub wraps. */
  function Sub1(n: nat): nat { if n == 0 then USIZE_MAX else n - 1 }

  class Counter {
    var value: nat
    constructor ()
      ensures value == 0
    {
      value := 0;
    }
  }

  class ConnGuard {
    const counter: Counter
    var armed: bool

    constructor (c: Counter)
      ensures counter == c && armed
    {
      counter, armed := c, true;
    }

    method ReleaseNow()
      modifies this, counter
      ensures !armed && counter.value == if old(armed) then Sub1(old(counter.value)) else old(counter.value)
    {
      if armed {
        counter.value := if counter.value == 0 then USIZE_MAX else counter.value - 1;
        armed := false;
      }
    }

    method Drop()
      modifies counter
      ensures counter.value == if armed then Sub1(old(counter.value)) else old(counter.value)
    {
      if armed {
        counter.value := if counter.value == 0 then USIZE_MAX else counter.value - 1;
      }
    }
  }

  // ----- the server ------------------------------------------------------------------

  /** A connection that was let in. */
  datatype Conn =
    | Spawned(uid: Uid)                             // counted, guard not built yet
    | Serving(uid: Uid)                             // guard armed
    | Granted(uid: Uid)                             // subscriber slot taken, guard still armed
    | Streaming(uid: Uid)                           // request slot handed back
    | Closing(uid: Uid, armed: bool, slot: bool)    // drops running

  datatype State = State(
    cap: nat,
    rejecting: bool,
    inFlight: nat,
    counts: Counts,
    conns: map<Cid, Conn>,
    used: set<Cid>)

  datatype Event =
    | Accept(cid: Cid, uid: Uid)
    | Reject
    | Build(cid: Cid)
    | Subscribe(cid: Cid)
    | ReleaseNow(cid: Cid)
    | End(cid: Cid)
    | DropSlot(cid: Cid)
    | DropGuard(cid: Cid)

  /** A configured cap of 0 is read as 1. */
  function Start(configured: nat): State {
    State(if configured == 0 then 1 else configured, false, 0, Counts(0, map[]), map[], {})
  }

  predicate Enabled(s: State, e: Event) {
    match e
    case Accept(c, _) => !s.rejecting && c !in s.used
    case Reject => s.rejecting
    case Build(c) => c in s.conns && s.conns[c].Spawned?
    case Subscribe(c) => c in s.conns && s.conns[c].Serving?
    case ReleaseNow(c) => c in s.conns && s.conns[c].Granted?
    case End(c) => c in s.conns && (s.conns[c].Serving? || s.conns[c].Granted? || s.conns[c].Streaming?)
    case DropSlot(c) => c in s.conns && s.conns[c].Closing? && s.conns[c].slot
    case DropGuard(c) => c in s.conns && s.conns[c].Closing? && !s.conns[c].slot
  }

  function Step(s: State, e: Event): State
    requires Enabled(s, e)
  {
    match e
    case Accept(c, uid) =>
      var t := s.(inFlight := s.inFlight + 1, used := s.used + {c});
      if s.inFlight >= s.cap then t.(rejecting := true) else t.(conns := s.conns[c := Spawned(uid)])
    case Reject => s.(rejecting := false, inFlight := Sub1(s.inFlight))
    case Build(c) => s.(conns := s.conns[c := Serving(s.conns[c].uid)])
    case Subscribe(c) =>
      var uid := s.conns[c].uid;
      var t := s.(counts := Acquired(s.counts, uid));
      if HasRoom(s.counts, uid) then t.(conns := s.conns[c := Granted(uid)]) else t
    case ReleaseNow(c) => s.(inFlight := Sub1(s.inFlight), conns := s.conns[c := Streaming(s.conns[c].uid)])
    case End(c) =>
      var k := s.conns[c];
      s.(conns := s.conns[c := Closing(k.uid, !k.Streaming?, !k.Serving?)])
    case DropSlot(c) =>
      var k := s.conns[c];
      s.(counts := Released(s.counts, k.uid), conns := s.conns[c := k.(slot := false)])
    case DropGuard(c) =>
      s.(inFlight := if s.conns[c].armed then Sub1(s.inFlight) else s.inFlight, conns := s.conns - {c})
  }

  // ----- who owes what ---------------------------------------------------------------

  predicate HoldsRequest(k: Conn) { k.Spawned? || k.Serving? || k.Granted? || (k.Closing? && k.armed) }

  predicate HoldsSlot(k: Conn) { k.Granted? || k.Streaming? || (k.Closing? && k.slot) }

  ghost function Requests(conns: map<Cid, Conn>): set<Cid> { set c | c in conns && HoldsRequest(conns[c]) }

  ghost function Slots(conns: map<Cid, Conn>): set<Cid> { set c | c in conns && HoldsSlot(conns[c]) }

  ghost function SlotsOf(conns: map<Cid, Conn>, uid: Uid): set<Cid> {
    set c | c in conns && HoldsSlot(conns[c]) && conns[c].uid == uid
  }

  ghost function Sum(m: map<Uid, nat>): nat {
    if m == map[] then 0 else var k :| k in m; m[k] + Sum(m - {k})
  }

  function One(b: bool): nat { if b then 1 else 0 }

  /** The subscriber counters and the slots held agree, under both caps. */
  ghost predicate CountsMatch(counts: Counts, conns: map<Cid, Conn>) {
    && counts.total == |Slots(conns)| <= MAX_TOTAL
    && (forall u :: CountOf(counts.perUid, u) == |SlotsOf(conns, u)| <= MAX_PER_UID)
    && (forall u :: u in counts.perUid ==> counts.perUid[u] > 0)
    && Sum(counts.perUid) == counts.total
  }

  /** The request counter is what handlers owe, plus one while the loop turns someone away. */
  ghost predicate RequestsMatch(s: State) {
    && s.inFlight == |Requests(s.conns)| + One(s.rejecting)
    && |Requests(s.conns)| <= s.cap
  }

  ghost predicate Inv(s: State) {
    s.conns.Keys <= s.used && RequestsMatch(s) && CountsMatch(s.counts, s.conns)
  }

  lemma {:induction false} SumWithout(m: map<Uid, nat>, u: Uid)
    requires u in m
    ensures Sum(m) == m[u] + Sum(m - {u})
    decreases m.Keys
  {
    var k :| k in m && Sum(m) == m[k] + Sum(m - {k});
    if k != u {
      SumWithout(m - {k}, u);
      SumWithout(m - {u}, k);
      assert m - {k} - {u} == m - {u} - {k};
    }
  }

  lemma SumUpdate(m: map<Uid, nat>, u: Uid, n: nat)
    ensures Sum(m[u := n]) == Sum(m - {u}) + n && Sum(m) == Sum(m - {u}) + CountOf(m, u)
  {
    var m' := m[u := n];
    SumWithout(m', u);
    assert m' - {u} == m - {u};
    if u in m {
      SumWithout(m, u);
    } else {
      assert m - {u} == m;
    }
  }

  lemma OneOff(a: set<Cid>, b: set<Cid>, c: Cid)
    requires a - {c} == b - {c}
    ensures |b| == |a| - One(c in a) + One(c in b)
  {
    assert |a - {c}| == |a| - One(c in a) && |b - {c}| == |b| - One(c in b);
  }

  /** Changing one connection changes each census by that connection only. */
  lemma RequestsPut(conns: map<Cid, Conn>, c: Cid, k: Conn)
    ensures |Requests(conns[c := k])| ==
            |Requests(conns)| - One(c in conns && HoldsRequest(conns[c])) + One(HoldsRequest(k))
  {
    hide HoldsRequest;
    OneOff(Requests(conns), Requests(conns[c := k]), c);
  }

  lemma SlotsPut(conns: map<Cid, Conn>, c: Cid, k: Conn)
    ensures |Slots(conns[c := k])| == |Slots(conns)| - One(c in conns && HoldsSlot(conns[c])) + One(HoldsSlot(k))
  {
    hide HoldsSlot;
    OneOff(Slots(conns), Slots(conns[c := k]), c);
  }

  lemma SlotsOfPut(conns: map<Cid, Conn>, c: Cid, k: Conn, u: Uid)
    ensures |SlotsOf(conns[c := k], u)| ==
            |SlotsOf(conns, u)| - One(c in conns && HoldsSlot(conns[c]) && conns[c].uid == u)
            + One(HoldsSlot(k) && k.uid == u)
  {
    hide HoldsSlot;
    OneOff(SlotsOf(conns, u), SlotsOf(conns[c := k], u), c);
  }

  lemma Remove(conns: map<Cid, Conn>, c: Cid)
    requires c in conns && !HoldsSlot(conns[c])
    ensures |Requests(conns - {c})| == |Requests(conns)| - One(HoldsRequest(conns[c]))
    ensures Slots(conns - {c}) == Slots(conns)
    ensures forall u :: SlotsOf(conns - {c}, u) == SlotsOf(conns, u)
  {
    hide HoldsRequest, HoldsSlot;
    assert Requests(conns - {c}) == Requests(conns) - {c};
  }

  /** A step that neither takes nor gives back a subscriber slot. */
  lemma SlotKept(counts: Counts, conns: map<Cid, Conn>, c: Cid, k: Conn)
    requires CountsMatch(counts, conns)
    requires if c in conns then HoldsSlot(k) == HoldsSlot(conns[c]) && k.uid == conns[c].uid else !HoldsSlot(k)
    ensures CountsMatch(counts, conns[c := k])
  {
    SlotsPut(conns, c, k);
    forall u {
      SlotsOfPut(conns, c, k, u);
    }
    hide Slots, SlotsOf, Sum, HoldsSlot;
  }

  lemma SlotTaken(counts: Counts, conns: map<Cid, Conn>, c: Cid)
    requires CountsMatch(counts, conns) && c in conns && conns[c].Serving? && HasRoom(counts, conns[c].uid)
    ensures CountsMatch(Acquired(counts, conns[c].uid), conns[c := Granted(conns[c].uid)])
  {
    var uid := conns[c].uid;
    var k := Granted(uid);
    var counts', conns' := Acquired(counts, uid), conns[c := k];
    SlotsPut(conns, c, k);
    SumUpdate(counts.perUid, uid, CountOf(counts.perUid, uid) + 1);
    hide Slots, SlotsOf, Sum;
    forall u ensures CountOf(counts'.perUid, u) == |SlotsOf(conns', u)| <= MAX_PER_UID {
      SlotsOfPut(conns, c, k, u);
      assert CountOf(counts.perUid, u) == |SlotsOf(conns, u)|;
    }
  }

  lemma SlotRefused(counts: Counts, conns: map<Cid, Conn>, uid: Uid)
    requires CountsMatch(counts, conns) && !HasRoom(counts, uid)
    ensures Acquired(counts, uid) == counts
  {
  }

  lemma SlotGiven(counts: Counts, conns: map<Cid, Conn>, c: Cid)
    requires CountsMatch(counts, conns) && c in conns && conns[c].Closing? && conns[c].slot
    ensures CountsMatch(Released(counts, conns[c].uid), conns[c := conns[c].(slot := false)])
  {
    var k := conns[c].(slot := false);
    var uid := k.uid;
    var counts', conns' := Released(counts, uid), conns[c := k];
    SlotHeld(conns, c);
    SlotsPut(conns, c, k);
    var n := CountOf(counts.perUid, uid);
    SumUpdate(counts.perUid, uid, n - 1);
    hide Slots, SlotsOf, Sum;
    forall u ensures CountOf(counts'.perUid, u) == |SlotsOf(conns', u)| <= MAX_PER_UID {
      SlotsOfPut(conns, c, k, u);
      assert CountOf(counts.perUid, u) == |SlotsOf(conns, u)|;
    }
  }

  lemma SlotHeld(conns: map<Cid, Conn>, c: Cid)
    requires c in conns && HoldsSlot(conns[c])
    ensures |Slots(conns)| >= 1 && |SlotsOf(conns, conns[c].uid)| >= 1
  {
    assert c in Slots(conns) && c in SlotsOf(conns, conns[c].uid);
  }

  lemma RequestHeld(conns: map<Cid, Conn>, c: Cid)
    requires c in conns && HoldsRequest(conns[c])
    ensures |Requests(conns)| >= 1
  {
    assert c in Requests(conns);
  }

  lemma StepKeepsCounts(s: State, e: Event)
    requires Inv(s) && Enabled(s, e)
    ensures var t := Step(s, e); CountsMatch(t.counts, t.conns)
  {
    hide RequestsMatch, CountsMatch, HasRoom, Acquired, Released;
    match e
    case Accept(c, uid) => SlotKept(s.counts, s.conns, c, Spawned(uid));
    case Reject =>
    case Subscribe(c) =>
      if HasRoom(s.counts, s.conns[c].uid) {
        SlotTaken(s.counts, s.conns, c);
      } else {
        SlotRefused(s.counts, s.conns, s.conns[c].uid);
      }
    case DropSlot(c) => SlotGiven(s.counts, s.conns, c);
    case DropGuard(c) => GuardDropped(s.counts, s.conns, c);
    case Build(c) => SlotKept(s.counts, s.conns, c, Step(s, e).conns[c]);
    case ReleaseNow(c) => SlotKept(s.counts, s.conns, c, Step(s, e).conns[c]);
    case End(c) => SlotKept(s.counts, s.conns, c, Step(s, e).conns[c]);
  }

  lemma GuardDropped(counts: Counts, conns: map<Cid, Conn>, c: Cid)
    requires CountsMatch(counts, conns) && c in conns && !HoldsSlot(conns[c])
    ensures CountsMatch(counts, conns - {c})
  {
    Remove(conns, c);
    hide Slots, SlotsOf, Sum, HoldsSlot;
  }

  lemma StepKeepsRequests(s: State, e: Event)
    requires Inv(s) && Enabled(s, e)
    ensures RequestsMatch(Step(s, e))
  {
    hide CountsMatch, HasRoom, Acquired, Released, Requests;
    var t := Step(s, e);
    match e
    case Reject =>
    case DropGuard(c) =>
      if s.conns[c].armed {
        RequestHeld(s.conns, c);
      }
      Remove(s.conns, c);
    case Accept(c, uid) => RequestsPut(s.conns, c, Spawned(uid));
    case _ =>
      var c := e.cid;
      if HoldsRequest(s.conns[c]) {
        RequestHeld(s.conns, c);
      }
      RequestsPut(s.conns, c, t.conns[c]);
      assert t.conns == s.conns[c := t.conns[c]];
  }

  lemma StepKeepsInv(s: State, e: Event)
    requires Inv(s) && Enabled(s, e)
    ensures Inv(Step(s, e))
  {
    StepKeepsCounts(s, e);
    StepKeepsRequests(s, e);
    hide CountsMatch, RequestsMatch, Acquired, Released, HasRoom;
  }

  // ----- every run -------------------------------------------------------------------

  ghost predicate Run(configured: nat, es: seq<Event>, ss: seq<State>) {
    && |ss| == |es| + 1 && ss[0] == Start(configured)
    && forall i {:trigger es[i]} :: 0 <= i < |es| ==> Enabled(ss[i], es[i]) && ss[i + 1] == Step(ss[i], es[i])
  }

  lemma {:induction false} InvHolds(configured: nat, es: seq<Event>, ss: seq<State>, n: nat)
    requires Run(configured, es, ss) && n < |ss|
    ensures Inv(ss[n]) && ss[n].cap == if configured == 0 then 1 else configured
  {
    if n > 0 {
      InvHolds(configured, es, ss, n - 1);
      StepKeepsInv(ss[n - 1], es[n - 1]);
      assert ss[n - 1 + 1] == Step(ss[n - 1], es[n - 1]);
      hide Inv;
    } else {
      InvAtStart(configured);
    }
  }

  lemma InvAtStart(configured: nat)
    ensures Inv(Start(configured))
  {
    var none: map<Cid, Conn> := map[];
    assert Requests(none) == {} && Slots(none) == {};
    assert forall u :: SlotsOf(none, u) == {};
  }

  /** In every reachable state the counters are the slots held and no cap is exceeded. */
  lemma CountersExact(configured: nat, es: seq<Event>, ss: seq<State>, n: nat)
    requires Run(configured, es, ss) && n < |ss|
    ensures var s, cap := ss[n], if configured == 0 then 1 else configured;
            && s.inFlight == |Requests(s.conns)| + One(s.rejecting)
            && |Requests(s.conns)| <= cap
            && s.counts.total == Sum(s.counts.perUid) == |Slots(s.conns)| <= 16
            && forall u :: CountOf(s.counts.perUid, u) == |SlotsOf(s.conns, u)| <= 4
  {
    InvHolds(configured, es, ss, n);
    hide Run, Requests, Slots, SlotsOf, Sum;
  }

  /** No subtraction ever wraps or saturates, and every release finds its own count. */
  lemma NoSubtractionSaturates(configured: nat, es: seq<Event>, ss: seq<State>, i: nat)
    requires Run(configured, es, ss) && i < |es|
    ensures var s, e := ss[i], es[i];
            && (e.Reject? || e.ReleaseNow? || (e.DropGuard? && s.conns[e.cid].armed) ==> s.inFlight >= 1)
            && (e.DropSlot? ==> s.counts.total >= 1 && CountOf(s.counts.perUid, s.conns[e.cid].uid) >= 1)
  {
    InvHolds(configured, es, ss, i);
    var s, e := ss[i], es[i];
    assert Enabled(s, e);
    hide Run, Sum;
    if e.DropSlot? {
      SlotHeld(s.conns, e.cid);
    } else if e.ReleaseNow? || (e.DropGuard? && s.conns[e.cid].armed) {
      RequestHeld(s.conns, e.cid);
    }
  }

  /** A connection is turned away exactly when as many requests are held as the cap allows,
      and a subscriber exactly when its UID or the daemon has all its slots out. */
  lemma RefusedOnlyWhenFull(configured: nat, es: seq<Event>, ss: seq<State>, i: nat)
    requires Run(configured, es, ss) && i < |es|
    ensures es[i].Accept? ==> (ss[i + 1].rejecting <==> |Requests(ss[i].conns)| == ss[i].cap)
    ensures es[i].Subscribe? ==>
              var c, s := es[i].cid, ss[i];
              !ss[i + 1].conns[c].Granted? <==>
                |Slots(s.conns)| == 16 || |SlotsOf(s.conns, s.conns[c].uid)| == 4
  {
    InvHolds(configured, es, ss, i);
    assert ss[i + 1] == Step(ss[i], es[i]);
    hide Run, Requests, Slots, SlotsOf, Sum;
  }

  // ----- exactly once ------------------------------------------------------------------

  predicate TakesRequest(s: State, e: Event, c: Cid) { e.Accept? && e.cid == c && s.inFlight < s.cap }

  predicate GivesRequest(s: State, e: Event, c: Cid) {
    (e.ReleaseNow? && e.cid == c)
    || (e.DropGuard? && e.cid == c && c in s.conns && s.conns[c].Closing? && s.conns[c].armed)
  }

  predicate TakesSlot(s: State, e: Event, c: Cid) {
    e.Subscribe? && e.cid == c && c in s.conns && HasRoom(s.counts, s.conns[c].uid)
  }

  predicate GivesSlot(e: Event, c: Cid) { e.DropSlot? && e.cid == c }

  /** Slots of connection `c` taken and given back so far. */
  datatype Ledger = Ledger(requestsTaken: nat, requestsGiven: nat, slotsTaken: nat, slotsGiven: nat)

  ghost function LedgerOf(es: seq<Event>, ss: seq<State>, n: nat, c: Cid): Ledger
    requires n <= |es| && n <= |ss|
  {
    if n == 0 then Ledger(0, 0, 0, 0)
    else
      var l, s, e := LedgerOf(es, ss, n - 1, c), ss[n - 1], es[n - 1];
      Ledger(l.requestsTaken + One(TakesRequest(s, e, c)), l.requestsGiven + One(GivesRequest(s, e, c)),
             l.slotsTaken + One(TakesSlot(s, e, c)), l.slotsGiven + One(GivesSlot(e, c)))
  }

  /** Where a connection stands and what its ledger then says. */
  predicate Settled(s: State, c: Cid, l: Ledger) {
    if c !in s.used then l == Ledger(0, 0, 0, 0)
    else if c !in s.conns then l.requestsTaken == l.requestsGiven <= 1 && l.slotsTaken == l.slotsGiven <= 1
    else
      var k := s.conns[c];
      && l.requestsTaken == 1 && l.requestsGiven == 1 - One(HoldsRequest(k))
      && l.slotsTaken <= 1 && l.slotsTaken == l.slotsGiven + One(HoldsSlot(k))
      && (k.Spawned? || k.Serving? ==> l.slotsTaken == 0)
  }

  lemma StepSettles(s: State, e: Event, c: Cid, l: Ledger)
    requires s.conns.Keys <= s.used && Enabled(s, e) && Settled(s, c, l)
    ensures Settled(Step(s, e), c,
                    Ledger(l.requestsTaken + One(TakesRequest(s, e, c)), l.requestsGiven + One(GivesRequest(s, e, c)),
                           l.slotsTaken + One(TakesSlot(s, e, c)), l.slotsGiven + One(GivesSlot(e, c))))
  {
  }

  /** Every connection takes its request slot and its subscriber slot at most once, holds
      what it has not given back, and gives each back exactly once by the time it is gone. */
  lemma {:induction false} ReleasedExactlyOnce(configured: nat, es: seq<Event>, ss: seq<State>, n: nat, c: Cid)
    requires Run(configured, es, ss) && |ss| == |es| + 1 && n <= |es|
    ensures Settled(ss[n], c, LedgerOf(es, ss, n, c))
  {
    hide Settled, Inv, Run, Step, Enabled, TakesRequest, GivesRequest, TakesSlot, GivesSlot, One;
    if n > 0 {
      ReleasedExactlyOnce(configured, es, ss, n - 1, c);
      StepTaken(configured, es, ss, n - 1);
      StepSettles(ss[n - 1], es[n - 1], c, LedgerOf(es, ss, n - 1, c));
    } else {
      StartSettled(configured, es, ss, c);
    }
  }

  lemma StepTaken(configured: nat, es: seq<Event>, ss: seq<State>, i: nat)
    requires Run(configured, es, ss) && i < |es|
    ensures |ss| == |es| + 1 && Enabled(ss[i], es[i]) && ss[i + 1] == Step(ss[i], es[i])
    ensures ss[i].conns.Keys <= ss[i].used
  {
    InvHolds(configured, es, ss, i);
  }

  lemma StartSettled(configured: nat, es: seq<Event>, ss: seq<State>, c: Cid)
    requires Run(configured, es, ss)
    ensures Settled(ss[0], c, Ledger(0, 0, 0, 0))
  {
  }
}
