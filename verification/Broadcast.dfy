/** Bounded fan-out of warn events: registration, the two sends of one broadcast, and what a
    subscriber can reconstruct from the messages and drop notices it receives.

    Readers run beside the broadcaster: they may take messages at any moment, also between
    the notice and the event of one broadcast. A full inbox refuses the new message. */
module Broadcast {

  const INBOX: nat := 256
  const U32_MAX: nat := 0xffff_ffff

  type Id = nat
  type Pid = nat
  datatype Event = Event(pid: Pid, body: string)
  datatype Message = Live(event: Event) | Dropped(count: nat)
  datatype Subscriber = Subscriber(id: Id, root: Pid, inbox: seq<Message>, pending: nat)

  /** What a reader does while one broadcast serves it: `between` messages taken after the
      notice was tried, or gone before the event was sent. */
  datatype Reader = Reader(gone: bool, between: nat)

  // ----- one subscriber ------------------------------------------------------------

  function Saturating(n: nat): nat { if n < U32_MAX then n + 1 else U32_MAX }

  function Flush(s: Subscriber): Subscriber {
    if s.pending > 0 && |s.inbox| < INBOX then s.(inbox := s.inbox + [Dropped(s.pending)], pending := 0) else s
  }

  function Send(s: Subscriber, e: Event): Subscriber {
    if |s.inbox| < INBOX then s.(inbox := s.inbox + [Live(e)]) else s.(pending := Saturating(s.pending))
  }

  function Taken(s: Subscriber, k: nat): nat { if k <= |s.inbox| then k else |s.inbox| }

  function Drain(s: Subscriber, k: nat): Subscriber { s.(inbox := s.inbox[Taken(s, k)..]) }

  function Offer(s: Subscriber, e: Event, between: nat): Subscriber {
    Send(Drain(Flush(s), between), e)
  }

  // ----- the list ------------------------------------------------------------------

  predicate Wants(s: Subscriber, e: Event, inTree: (Pid, Pid) -> bool) {
    s.root == 0 || inTree(e.pid, s.root)
  }

  /** What one broadcast leaves of the list. */
  function Fanned(subs: seq<Subscriber>, e: Event, inTree: (Pid, Pid) -> bool, reader: Id -> Reader): seq<Subscriber> {
    if subs == [] then []
    else
      var n := |subs| - 1;
      var s, rest := subs[n], Fanned(subs[..n], e, inTree, reader);
      if !Wants(s, e, inTree) then rest + [s]
      else if reader(s.id).gone then rest
      else rest + [Offer(s, e, reader(s.id).between)]
  }

  function Without(subs: seq<Subscriber>, id: Id): seq<Subscriber> {
    if subs == [] then []
    else
      var n := |subs| - 1;
      Without(subs[..n], id) + if subs[n].id != id then [subs[n]] else []
  }

  ghost predicate Distinct(subs: seq<Subscriber>, below: Id) {
    && (forall i :: 0 <= i < |subs| ==> subs[i].id < below && |subs[i].inbox| <= INBOX)
    && (forall i, j :: 0 <= i < j < |subs| ==> subs[i].id != subs[j].id)
  }

  class Registry {
    var subs: seq<Subscriber>
    var nextId: Id

    ghost predicate Valid()
      reads this
    {
      Distinct(subs, nextId)
    }

    constructor ()
      ensures Valid() && subs == []
    {
      subs, nextId := [], 0;
    }

    method Register(root: Pid) returns (id: Id)
      requires Valid()
      modifies this
      ensures Valid() && id == old(nextId) && nextId == old(nextId) + 1
      ensures forall s :: s in old(subs) ==> s.id != id
      ensures subs == old(subs) + [Subscriber(id, root, [], 0)]
    {
      id := nextId;
      nextId := nextId + 1;
      subs := subs + [Subscriber(id, root, [], 0)];
    }

    /** Idempotent: `id` is gone, everyone else stays as they were. */
    method Deregister(id: Id)
      requires Valid()
      modifies this
      ensures Valid() && subs == Without(old(subs), id) && nextId == old(nextId)
      ensures forall s :: s in subs <==> s in old(subs) && s.id != id
    {
      var kept := [];
      var i := 0;
      while i < |subs|
        invariant i <= |subs| && kept == Without(subs[..i], id)
        invariant subs == old(subs) && nextId == old(nextId)
      {
        assert subs[..i + 1][..i] == subs[..i];
        if subs[i].id != id {
          kept := kept + [subs[i]];
        }
        i := i + 1;
      }
      assert subs[..i] == subs;
      WithoutKeeps(subs, id, nextId);
      subs := kept;
    }

    /** One broadcast, with what each reader does meanwhile. */
    method BroadcastEvent(e: Event, inTree: (Pid, Pid) -> bool, reader: Id -> Reader)
      requires Valid()
      modifies this
      ensures Valid() && subs == Fanned(old(subs), e, inTree, reader) && nextId == old(nextId)
    {
      var kept := [];
      var i := 0;
      while i < |subs|
        invariant i <= |subs| && kept == Fanned(subs[..i], e, inTree, reader)
        invariant subs == old(subs) && nextId == old(nextId)
      {
        assert subs[..i + 1][..i] == subs[..i];
        var s := subs[i];
        if s.root != 0 && !inTree(e.pid, s.root) {
          kept := kept + [s];
        } else if !reader(s.id).gone {
          s := OfferOne(s, e, reader(s.id).between);
          kept := kept + [s];
        }
        i := i + 1;
      }
      assert subs[..i] == subs;
      FannedKeeps(subs, e, inTree, reader, nextId);
      subs := kept;
    }
  }

  /** The reader of `id` takes one message. */
  function Received(subs: seq<Subscriber>, id: Id): seq<Subscriber> {
    seq(|subs|, i requires 0 <= i < |subs| => if subs[i].id == id then Drain(subs[i], 1) else subs[i])
  }

  /** The two sends to one subscriber. */
  method OfferOne(s: Subscriber, e: Event, between: nat) returns (s': Subscriber)
    ensures s' == Offer(s, e, between)
  {
    s' := s;
    if s'.pending > 0 {
      if |s'.inbox| < INBOX {
        s' := s'.(inbox := s'.inbox + [Dropped(s'.pending)]);
        s' := s'.(pending := 0);
      }
    }
    s' := Drain(s', between);
    if |s'.inbox| < INBOX {
      s' := s'.(inbox := s'.inbox + [Live(e)]);
    } else {
      s' := s'.(pending := if s'.pending < U32_MAX then s'.pending + 1 else U32_MAX);
    }
  }

  lemma {:induction false} WithoutKeeps(subs: seq<Subscriber>, id: Id, below: Id)
    requires Distinct(subs, below)
    ensures Distinct(Without(subs, id), below)
    ensures forall s :: s in Without(subs, id) <==> s in subs && s.id != id
  {
    if subs != [] {
      var n := |subs| - 1;
      assert subs == subs[..n] + [subs[n]];
      WithoutKeeps(subs[..n], id, below);
    }
  }

  lemma OfferKeeps(s: Subscriber, e: Event, between: nat)
    requires |s.inbox| <= INBOX
    ensures Offer(s, e, between).id == s.id && |Offer(s, e, between).inbox| <= INBOX
  {
  }

  lemma {:induction false} FannedIds(subs: seq<Subscriber>, e: Event, inTree: (Pid, Pid) -> bool,
                                   reader: Id -> Reader, id: Id)
    requires forall t :: t in subs ==> t.id != id
    ensures forall s :: s in Fanned(subs, e, inTree, reader) ==> s.id != id
  {
    if subs != [] {
      FannedIds(subs[..|subs| - 1], e, inTree, reader, id);
    }
  }

  lemma {:induction false} FannedKeeps(subs: seq<Subscriber>, e: Event, inTree: (Pid, Pid) -> bool,
                                     reader: Id -> Reader, below: Id)
    requires Distinct(subs, below)
    ensures Distinct(Fanned(subs, e, inTree, reader), below)
  {
    if subs != [] {
      var n := |subs| - 1;
      var s := subs[n];
      FannedKeeps(subs[..n], e, inTree, reader, below);
      FannedIds(subs[..n], e, inTree, reader, s.id);
      OfferKeeps(s, e, reader(s.id).between);
      hide Offer;
    }
  }

  /** The broadcast leaves a subscriber alone unless the event is for it and its reader is
      gone. */
  predicate Stays(s: Subscriber, e: Event, inTree: (Pid, Pid) -> bool, reader: Id -> Reader) {
    !((s.root == 0 || inTree(e.pid, s.root)) && reader(s.id).gone)
  }

  /** Exactly those that stay are in the list afterwards, in the old order, each with its own
      id and root: `at` tells where each of them was. */
  lemma {:induction false} FannedKeepsOrder(subs: seq<Subscriber>, e: Event, inTree: (Pid, Pid) -> bool,
                                            reader: Id -> Reader) returns (at: seq<nat>)
    ensures var after := Fanned(subs, e, inTree, reader);
            && |at| == |after|
            && (forall k :: 0 <= k < |at| ==>
                  at[k] < |subs| && after[k].id == subs[at[k]].id && after[k].root == subs[at[k]].root)
    ensures forall k, m :: 0 <= k < m < |at| ==> at[k] < at[m]
    ensures forall i :: 0 <= i < |subs| ==> (i in at <==> Stays(subs[i], e, inTree, reader))
  {
    if subs == [] {
      return [];
    }
    var n := |subs| - 1;
    at := FannedKeepsOrder(subs[..n], e, inTree, reader);
    OfferSameOwner(subs[n], e, reader(subs[n].id).between);
    hide Offer;
    if Stays(subs[n], e, inTree, reader) {
      at := at + [n];
    }
  }

  lemma OfferSameOwner(s: Subscriber, e: Event, between: nat)
    ensures Offer(s, e, between).id == s.id && Offer(s, e, between).root == s.root
  {
  }

  // ----- whole runs of one subscription ----------------------------------------------

  /** A matched event with the messages taken between its two sends, or a message taken. */
  datatype Action = Matched(event: Event, between: nat) | Take

  /** What became of a matched event. */
  datatype Fate = Arrived(event: Event) | Gap

  /** A subscriber with all it has received and the fate of every event it matched. */
  datatype History = History(sub: Subscriber, got: seq<Message>, fates: seq<Fate>, lost: nat, leaped: bool)

  /** Everything that was ever put into the inbox. */
  function Sent(h: History): seq<Message> { h.got + h.sub.inbox }

  /** The notice did not fit but the event did: a reader made room in between. */
  predicate Leaps(s: Subscriber, between: nat) {
    s.pending > 0 && |s.inbox| >= INBOX && |Drain(s, between).inbox| < INBOX
  }

  function Act(h: History, a: Action): History {
    match a
    case Take =>
      var k := Taken(h.sub, 1);
      h.(sub := Drain(h.sub, 1), got := h.got + h.sub.inbox[..k])
    case Matched(e, between) =>
      var s := Flush(h.sub);
      var room := |Drain(s, between).inbox| < INBOX;
      History(Offer(h.sub, e, between),
              h.got + s.inbox[..Taken(s, between)],
              h.fates + [if room then Arrived(e) else Gap],
              h.lost + (if !room && s.pending == U32_MAX then 1 else 0),
              h.leaped || Leaps(h.sub, between))
  }

  function Play(id: Id, root: Pid, acts: seq<Action>): History {
    if acts == [] then History(Subscriber(id, root, [], 0), [], [], 0, false)
    else Act(Play(id, root, acts[..|acts| - 1]), acts[|acts| - 1])
  }

  function Gaps(n: nat): seq<Fate> { seq(n, _ => Gap) }

  /** A subscriber's reading of its messages: every notice stands for that many gaps. */
  function Expand(ms: seq<Message>): seq<Fate> {
    if ms == [] then []
    else
      var m := ms[|ms| - 1];
      Expand(ms[..|ms| - 1]) + if m.Live? then [Arrived(m.event)] else Gaps(m.count)
  }

  function LiveCount(ms: seq<Message>): nat {
    if ms == [] then 0 else LiveCount(ms[..|ms| - 1]) + if ms[|ms| - 1].Live? then 1 else 0
  }

  function NoticeSum(ms: seq<Message>): nat {
    if ms == [] then 0 else NoticeSum(ms[..|ms| - 1]) + if ms[|ms| - 1].Live? then 0 else ms[|ms| - 1].count
  }

  function MatchedEvents(acts: seq<Action>): seq<Event> {
    if acts == [] then []
    else
      var a := acts[|acts| - 1];
      MatchedEvents(acts[..|acts| - 1]) + if a.Matched? then [a.event] else []
  }

  lemma ExpandSnoc(ms: seq<Message>, m: Message)
    ensures Expand(ms + [m]) == Expand(ms) + if m.Live? then [Arrived(m.event)] else Gaps(m.count)
    ensures LiveCount(ms + [m]) == LiveCount(ms) + if m.Live? then 1 else 0
    ensures NoticeSum(ms + [m]) == NoticeSum(ms) + if m.Live? then 0 else m.count
  {
    assert (ms + [m])[..|ms|] == ms;
  }

  lemma {:induction false} ExpandLength(ms: seq<Message>)
    ensures |Expand(ms)| == LiveCount(ms) + NoticeSum(ms)
  {
    if ms != [] {
      ExpandLength(ms[..|ms| - 1]);
    }
  }

  /** The notice that goes out before an event, if one is due and fits. */
  function NoticeOf(s: Subscriber): seq<Message> {
    if s.pending > 0 && |s.inbox| < INBOX then [Dropped(s.pending)] else []
  }

  /** The event itself, if it fits after the notice and the reader. */
  function EventOf(s: Subscriber, e: Event, between: nat): seq<Message> {
    if |Drain(Flush(s), between).inbox| < INBOX then [Live(e)] else []
  }

  lemma TakeMoves(got: seq<Message>, inbox: seq<Message>, k: nat, more: seq<Message>)
    requires k <= |inbox|
    ensures got + inbox[..k] + (inbox[k..] + more) == got + inbox + more
  {
    assert inbox == inbox[..k] + inbox[k..];
  }

  lemma SentGrows(h: History, a: Action)
    ensures a.Take? ==> Sent(Act(h, a)) == Sent(h)
    ensures a.Matched? ==> Sent(Act(h, a)) == Sent(h) + NoticeOf(h.sub) + EventOf(h.sub, a.event, a.between)
  {
    if a.Take? {
      TakeMoves(h.got, h.sub.inbox, Taken(h.sub, 1), []);
    } else {
      var s, more := Flush(h.sub), EventOf(h.sub, a.event, a.between);
      assert s.inbox == h.sub.inbox + NoticeOf(h.sub);
      assert Offer(h.sub, a.event, a.between).inbox == Drain(s, a.between).inbox + more;
      hide EventOf, NoticeOf, Flush, Offer;
      TakeMoves(h.got, s.inbox, Taken(s, a.between), more);
      assert h.got + s.inbox == Sent(h) + NoticeOf(h.sub);
    }
  }

  lemma ExpandNotice(ms: seq<Message>, s: Subscriber)
    ensures Expand(ms + NoticeOf(s)) ==
            if s.pending > 0 && |s.inbox| < INBOX then Expand(ms) + Gaps(s.pending) else Expand(ms)
  {
    ExpandSnoc(ms, Dropped(s.pending));
    assert ms + [] == ms;
  }

  lemma ExpandEvent(ms: seq<Message>, s: Subscriber, e: Event, between: nat)
    ensures Expand(ms + EventOf(s, e, between)) ==
            if EventOf(s, e, between) != [] then Expand(ms) + [Arrived(e)] else Expand(ms)
  {
    ExpandSnoc(ms, Live(e));
    hide Flush, Drain;
    assert ms + [] == ms;
  }

  /** The reading went wrong somewhere, for good. */
  ghost predicate Misplaced(x: seq<Fate>, fates: seq<Fate>) {
    exists i :: 0 <= i < |x| && i < |fates| && x[i] != fates[i]
  }

  /** How the reading `x`, the counters and the fates hang together. */
  ghost predicate Books(x: seq<Fate>, pending: nat, lost: nat, leaped: bool, fates: seq<Fate>) {
    && pending <= U32_MAX
    && |x| + pending + lost == |fates|
    && (lost == 0 && !leaped ==> x + Gaps(pending) == fates)
    && (lost == 0 && leaped ==> Misplaced(x, fates))
  }

  lemma NoticeKeepsBooks(x: seq<Fate>, pending: nat, lost: nat, leaped: bool, fates: seq<Fate>)
    requires Books(x, pending, lost, leaped, fates)
    ensures Books(x + Gaps(pending), 0, lost, leaped, fates)
  {
    if lost == 0 && leaped {
      var i :| 0 <= i < |x| && i < |fates| && x[i] != fates[i];
      assert (x + Gaps(pending))[i] == x[i];
    }
  }

  lemma ArrivalKeepsBooks(x: seq<Fate>, pending: nat, lost: nat, leaped: bool, fates: seq<Fate>, e: Event)
    requires Books(x, pending, lost, leaped, fates)
    ensures Books(x + [Arrived(e)], pending, lost, leaped || pending > 0, fates + [Arrived(e)])
  {
    var x', fates' := x + [Arrived(e)], fates + [Arrived(e)];
    if lost == 0 && leaped {
      var i :| 0 <= i < |x| && i < |fates| && x[i] != fates[i];
      assert x'[i] == x[i] && fates'[i] == fates[i];
    } else if lost == 0 && pending > 0 {
      assert x'[|x|] == Arrived(e) && fates'[|x|] == (x + Gaps(pending))[|x|] == Gap;
    }
  }

  lemma DropKeepsBooks(x: seq<Fate>, pending: nat, lost: nat, leaped: bool, fates: seq<Fate>)
    requires Books(x, pending, lost, leaped, fates)
    ensures Books(x, Saturating(pending), lost + (if pending == U32_MAX then 1 else 0), leaped, fates + [Gap])
  {
    var fates' := fates + [Gap];
    if lost == 0 && leaped {
      var i :| 0 <= i < |x| && i < |fates| && x[i] != fates[i];
      assert fates'[i] == fates[i];
    } else if lost == 0 && pending < U32_MAX {
      assert Gaps(pending + 1) == Gaps(pending) + [Gap];
      assert x + Gaps(pending + 1) == x + Gaps(pending) + [Gap];
    }
  }

  ghost predicate Accounted(h: History) {
    Books(Expand(Sent(h)), h.sub.pending, h.lost, h.leaped, h.fates)
  }

  lemma ActKeepsAccounts(h: History, a: Action)
    requires Accounted(h)
    ensures Accounted(Act(h, a))
  {
    SentGrows(h, a);
    if a.Matched? {
      var x, s := Expand(Sent(h)), Flush(h.sub);
      var ms := Sent(h) + NoticeOf(h.sub);
      ExpandNotice(Sent(h), h.sub);
      ExpandEvent(ms, h.sub, a.event, a.between);
      FlushKeepsBooks(h.sub, x, h.lost, h.leaped, h.fates);
      SendKeepsBooks(h, a, Expand(ms));
    }
  }

  lemma FlushKeepsBooks(s: Subscriber, x: seq<Fate>, lost: nat, leaped: bool, fates: seq<Fate>)
    requires Books(x, s.pending, lost, leaped, fates)
    ensures Books(if s.pending > 0 && |s.inbox| < INBOX then x + Gaps(s.pending) else x,
                  Flush(s).pending, lost, leaped, fates)
  {
    NoticeKeepsBooks(x, s.pending, lost, leaped, fates);
    hide Books;
  }

  lemma SendKeepsBooks(h: History, a: Action, x: seq<Fate>)
    requires a.Matched? && Books(x, Flush(h.sub).pending, h.lost, h.leaped, h.fates)
    ensures var h' := Act(h, a);
            Books(if EventOf(h.sub, a.event, a.between) != [] then x + [Arrived(a.event)] else x,
                  h'.sub.pending, h'.lost, h'.leaped, h'.fates)
  {
    var s := Flush(h.sub);
    hide Books;
    if |Drain(s, a.between).inbox| < INBOX {
      ArrivalKeepsBooks(x, s.pending, h.lost, h.leaped, h.fates, a.event);
    } else {
      DropKeepsBooks(x, s.pending, h.lost, h.leaped, h.fates);
    }
  }

  lemma {:induction false} AccountsHold(id: Id, root: Pid, acts: seq<Action>)
    ensures Accounted(Play(id, root, acts))
  {
    if acts != [] {
      AccountsHold(id, root, acts[..|acts| - 1]);
      ActKeepsAccounts(Play(id, root, acts[..|acts| - 1]), acts[|acts| - 1]);
    }
  }

  /** The fates are those of the matched events, in order. */
  lemma {:induction false} FatesFollowMatches(id: Id, root: Pid, acts: seq<Action>)
    ensures var h, es := Play(id, root, acts), MatchedEvents(acts);
            && |h.fates| == |es|
            && forall i :: 0 <= i < |es| ==> h.fates[i] == Gap || h.fates[i] == Arrived(es[i])
  {
    if acts != [] {
      FatesFollowMatches(id, root, acts[..|acts| - 1]);
    }
  }

  /** Every matched event is enqueued, covered by a notice or still pending, exactly as long as
      the pending counter never had to saturate. */
  lemma ConservedIffUnsaturated(id: Id, root: Pid, acts: seq<Action>)
    ensures var h := Play(id, root, acts);
            |MatchedEvents(acts)| == LiveCount(Sent(h)) + NoticeSum(Sent(h)) + h.sub.pending <==> h.lost == 0
  {
    AccountsHold(id, root, acts);
    FatesFollowMatches(id, root, acts);
    ExpandLength(Sent(Play(id, root, acts)));
  }

  /** Reading every notice as that many gaps, and the pending count as the gaps to come, gives
      the fates of the matched events in order. */
  ghost predicate Reconstructs(h: History) {
    Expand(Sent(h)) + Gaps(h.sub.pending) == h.fates
  }

  /** Reading every notice as that many gaps gives the matched stream back, in order, exactly
      when no reader made room between a notice that did not fit and its event (and nothing
      saturated). */
  lemma ReconstructsIffNoLeap(id: Id, root: Pid, acts: seq<Action>)
    ensures Reconstructs(Play(id, root, acts)) <==> !Play(id, root, acts).leaped && Play(id, root, acts).lost == 0
  {
    AccountsHold(id, root, acts);
    var h := Play(id, root, acts);
    if h.lost == 0 && h.leaped {
      var i :| 0 <= i < |Expand(Sent(h))| && i < |h.fates| && Expand(Sent(h))[i] != h.fates[i];
      assert (Expand(Sent(h)) + Gaps(h.sub.pending))[i] == Expand(Sent(h))[i];
    }
  }

  /** Without a reader between the two sends there is no leap. */
  lemma {:induction false} UndisturbedNeverLeaps(id: Id, root: Pid, acts: seq<Action>)
    requires forall a :: a in acts && a.Matched? ==> a.between == 0
    ensures !Play(id, root, acts).leaped
  {
    if acts != [] {
      UndisturbedNeverLeaps(id, root, acts[..|acts| - 1]);
    }
  }

  function Burst(e: Event, n: nat): seq<Action> {
    if n == 0 then [] else Burst(e, n - 1) + [Matched(e, 0)]
  }

  lemma {:induction false} BurstFills(e: Event, n: nat)
    requires n <= INBOX
    ensures var h := Play(0, 0, Burst(e, n)); |h.sub.inbox| == n && h.sub.pending == 0 && h.lost == 0
  {
    if n > 0 {
      BurstFills(e, n - 1);
      assert Burst(e, n)[..|Burst(e, n)| - 1] == Burst(e, n - 1);
    }
  }

  /** A reader that takes one message at the wrong moment after 257 quick events makes the
      next event overtake its drop notice. */
  lemma LeapHappens(e: Event)
    ensures var h := Play(0, 0, Burst(e, 256) + [Matched(e, 0), Matched(e, 1)]);
            h.leaped && h.lost == 0 && !Reconstructs(h)
  {
    var full := Burst(e, INBOX);
    var over := full + [Matched(e, 0)];
    var acts := full + [Matched(e, 0), Matched(e, 1)];
    BurstFills(e, INBOX);
    assert over[..|over| - 1] == full && acts[..|acts| - 1] == over;
    var h := Play(0, 0, full);
    AccountsHold(0, 0, full);
    assert Play(0, 0, over) == Act(h, Matched(e, 0));
    assert Play(0, 0, acts) == Act(Play(0, 0, over), Matched(e, 1));
    ReconstructsIffNoLeap(0, 0, acts);
    hide Play, Reconstructs;
  }

  /** Fewer than 2^32 matched events never saturate the counter. */
  lemma {:induction false} FewMatchesLoseNothing(id: Id, root: Pid, acts: seq<Action>)
    ensures |MatchedEvents(acts)| < 0x1_0000_0000 ==> Play(id, root, acts).lost == 0
  {
    if acts != [] {
      var rest := acts[..|acts| - 1];
      FewMatchesLoseNothing(id, root, rest);
      AccountsHold(id, root, rest);
      FatesFollowMatches(id, root, rest);
      var h, a := Play(id, root, rest), acts[|acts| - 1];
      assert h.sub.pending + h.lost <= |h.fates|;
      assert Flush(h.sub).pending <= h.sub.pending;
      assert Play(id, root, acts) == Act(h, a);
      hide Play, Flush, Drain, Accounted;
    }
  }
}
