/** The registry as a whole: any sequence of registrations, broadcasts, receptions and
    deregistrations, and what it means for one subscriber. */
module BroadcastRuns {
  import opened Broadcast

  /** A broadcast comes with the roots whose trees hold its PID and with what the readers do
      meanwhile; a reader that is not listed does nothing. */
  datatype Request =
    | Join(root: Pid)
    | Leave(id: Id)
    | Cast(event: Event, roots: set<Pid>, readers: map<Id, Reader>)
    | Receive(id: Id)

  function InTree(roots: set<Pid>): (Pid, Pid) -> bool { (_, root) => root in roots }

  function Doing(readers: map<Id, Reader>): Id -> Reader {
    id => if id in readers then readers[id] else Reader(false, 0)
  }

  datatype Roster = Roster(subs: seq<Subscriber>, nextId: Id)

  function Served(l: Roster, c: Request): Roster {
    match c
    case Join(root) => Roster(l.subs + [Subscriber(l.nextId, root, [], 0)], l.nextId + 1)
    case Leave(id) => l.(subs := Without(l.subs, id))
    case Cast(e, roots, readers) => l.(subs := Fanned(l.subs, e, InTree(roots), Doing(readers)))
    case Receive(id) => l.(subs := Received(l.subs, id))
  }

  ghost function AfterRequests(rs: seq<Request>): Roster {
    if |rs| == 0 then Roster([], 0) else Served(AfterRequests(rs[..|rs| - 1]), rs[|rs| - 1])
  }

  /** What a request does to the subscription `id` of `root`. */
  function ActionOf(c: Request, id: Id, root: Pid): seq<Action> {
    match c
    case Cast(e, roots, readers) => if root == 0 || root in roots then [Matched(e, Doing(readers)(id).between)] else []
    case Receive(i) => if i == id then [Take] else []
    case _ => []
  }

  /** All that happened to it since it was registered. */
  ghost function ActionsOf(rs: seq<Request>, id: Id, root: Pid): seq<Action> {
    if |rs| == 0 then []
    else
      var rest, c := rs[..|rs| - 1], rs[|rs| - 1];
      if c.Join? && AfterRequests(rest).nextId == id then [] else ActionsOf(rest, id, root) + ActionOf(c, id, root)
  }

  lemma PlayMore(id: Id, root: Pid, acts: seq<Action>, more: seq<Action>)
    requires |more| <= 1
    ensures Play(id, root, acts + more) ==
            if more == [] then Play(id, root, acts) else Act(Play(id, root, acts), more[0])
  {
    hide Act;
    if more == [] {
      assert acts + more == acts;
    } else {
      assert (acts + more)[..|acts|] == acts;
    }
  }

  /** Where a subscriber that a broadcast leaves comes from. */
  lemma {:induction false} FannedOrigin(subs: seq<Subscriber>, e: Event, inTree: (Pid, Pid) -> bool,
                                        reader: Id -> Reader, s': Subscriber) returns (s: Subscriber)
    requires s' in Fanned(subs, e, inTree, reader)
    ensures s in subs && s' == if Wants(s, e, inTree) then Offer(s, e, reader(s.id).between) else s
  {
    var n := |subs| - 1;
    hide Offer, Wants;
    if s' in Fanned(subs[..n], e, inTree, reader) {
      s := FannedOrigin(subs[..n], e, inTree, reader, s');
    } else {
      s := subs[n];
    }
  }

  lemma Before(l: Roster, c: Request, s': Subscriber) returns (s: Subscriber)
    requires Distinct(l.subs, l.nextId) && s' in Served(l, c).subs && !(c.Join? && s'.id == l.nextId)
    ensures s in l.subs && s.id == s'.id && s.root == s'.root
    ensures var more := ActionOf(c, s.id, s.root);
            s' == if more == [] then s
                  else if more[0].Take? then Drain(s, 1) else Offer(s, more[0].event, more[0].between)
  {
    match c
    case Join(root) => s := s';
    case Leave(id) =>
      WithoutKeeps(l.subs, id, l.nextId);
      s := s';
    case Cast(e, roots, readers) => s := FannedOrigin(l.subs, e, InTree(roots), Doing(readers), s');
    case Receive(id) =>
      var i :| 0 <= i < |l.subs| && Received(l.subs, id)[i] == s';
      s := l.subs[i];
  }

  lemma RequestKeepsDistinct(l: Roster, c: Request)
    requires Distinct(l.subs, l.nextId)
    ensures Distinct(Served(l, c).subs, Served(l, c).nextId)
  {
    match c
    case Join(_) =>
    case Leave(id) => WithoutKeeps(l.subs, id, l.nextId);
    case Cast(e, roots, readers) => FannedKeeps(l.subs, e, InTree(roots), Doing(readers), l.nextId);
    case Receive(_) =>
  }

  lemma {:induction false} AlwaysDistinct(rs: seq<Request>)
    ensures Distinct(AfterRequests(rs).subs, AfterRequests(rs).nextId)
  {
    if |rs| > 0 {
      AlwaysDistinct(rs[..|rs| - 1]);
      RequestKeepsDistinct(AfterRequests(rs[..|rs| - 1]), rs[|rs| - 1]);
      hide Served, Distinct;
    }
  }

  /** After any sequence of requests, every subscriber in the list is where the run theorems put
      it: at the end of its own actions since it registered. */
  lemma {:induction false} SubscriberPlays(rs: seq<Request>, s': Subscriber)
    requires s' in AfterRequests(rs).subs
    ensures s' == Play(s'.id, s'.root, ActionsOf(rs, s'.id, s'.root)).sub
  {
    var rest, c := rs[..|rs| - 1], rs[|rs| - 1];
    var l := AfterRequests(rest);
    AlwaysDistinct(rest);
    assert AfterRequests(rs) == Served(l, c);
    if c.Join? && s'.id == l.nextId {
      assert s' == Subscriber(l.nextId, c.root, [], 0);
    } else {
      hide AfterRequests, Served, Distinct, Offer;
      var s := Before(l, c, s');
      SubscriberPlays(rest, s);
      var acts := ActionsOf(rest, s.id, s.root);
      PlayMore(s.id, s.root, acts, ActionOf(c, s.id, s.root));
      hide Play;
    }
  }

  // ----- who is registered -----------------------------------------------------------------

  /** How many registrations there were; ids are handed out by this count. */
  function Joins(rs: seq<Request>): nat {
    if |rs| == 0 then 0 else Joins(rs[..|rs| - 1]) + if rs[|rs| - 1].Join? then 1 else 0
  }

  lemma {:induction false} IdsAreCounted(rs: seq<Request>)
    ensures AfterRequests(rs).nextId == Joins(rs)
  {
    if |rs| > 0 {
      IdsAreCounted(rs[..|rs| - 1]);
    }
  }

  /** The request takes the subscription `id` of `root` off the list. */
  predicate Ends(c: Request, id: Id, root: Pid) {
    || c == Leave(id)
    || (c.Cast? && (root == 0 || root in c.roots) && id in c.readers && c.readers[id].gone)
  }

  /** `id` was handed out for `root` and nothing has ended the subscription since. */
  ghost predicate Registered(rs: seq<Request>, id: Id, root: Pid) {
    exists j {:trigger rs[j]} ::
      0 <= j < |rs| && rs[j] == Join(root) && Joins(rs[..j]) == id && NotEnded(rs, j, id, root)
  }

  ghost predicate NotEnded(rs: seq<Request>, j: nat, id: Id, root: Pid) {
    forall k :: j < k < |rs| ==> !Ends(rs[k], id, root)
  }

  ghost predicate Listed(l: Roster, id: Id, root: Pid) {
    exists s :: s in l.subs && s.id == id && s.root == root
  }

  lemma CastLists(l: Roster, c: Request, id: Id, root: Pid)
    requires c.Cast?
    ensures Listed(Served(l, c), id, root) <==> Listed(l, id, root) && !Ends(c, id, root)
  {
    var inTree, reader := InTree(c.roots), Doing(c.readers);
    var at := FannedKeepsOrder(l.subs, c.event, inTree, reader);
    var after := Fanned(l.subs, c.event, inTree, reader);
    hide Fanned;
    if Listed(Served(l, c), id, root) {
      var s :| s in after && s.id == id && s.root == root;
      var k :| 0 <= k < |after| && after[k] == s;
      assert at[k] in at && l.subs[at[k]] in l.subs;
    }
    if Listed(l, id, root) && !Ends(c, id, root) {
      var s :| s in l.subs && s.id == id && s.root == root;
      var i :| 0 <= i < |l.subs| && l.subs[i] == s;
      var k :| 0 <= k < |at| && at[k] == i;
      assert after[k] in after;
    }
  }

  lemma StepLists(l: Roster, c: Request, id: Id, root: Pid)
    requires Distinct(l.subs, l.nextId)
    ensures Listed(Served(l, c), id, root) <==>
              (c == Join(root) && l.nextId == id) || (Listed(l, id, root) && !Ends(c, id, root))
  {
    match c
    case Join(r) =>
      var s := Subscriber(l.nextId, r, [], 0);
      assert Served(l, c).subs == l.subs + [s];
      assert s in l.subs + [s];
    case Leave(i) => WithoutKeeps(l.subs, i, l.nextId);
    case Cast(_, _, _) => CastLists(l, c, id, root);
    case Receive(i) => ReceiveLists(l, i, id, root);
  }

  lemma ReceiveLists(l: Roster, i: Id, id: Id, root: Pid)
    ensures Listed(Served(l, Receive(i)), id, root) <==> Listed(l, id, root)
  {
    var after := Received(l.subs, i);
    if Listed(l, id, root) {
      var s :| s in l.subs && s.id == id && s.root == root;
      var k :| 0 <= k < |l.subs| && l.subs[k] == s;
      assert after[k] in after;
    }
    if Listed(Served(l, Receive(i)), id, root) {
      var s :| s in after && s.id == id && s.root == root;
      var k :| 0 <= k < |after| && after[k] == s;
      assert l.subs[k] in l.subs;
    }
  }

  lemma RegisteredSnoc(rs: seq<Request>, id: Id, root: Pid)
    requires |rs| > 0
    ensures var rest, c := rs[..|rs| - 1], rs[|rs| - 1];
            Registered(rs, id, root) <==>
              (c == Join(root) && Joins(rest) == id) || (Registered(rest, id, root) && !Ends(c, id, root))
  {
    hide Ends, Joins;
    var n := |rs| - 1;
    var rest := rs[..n];
    assert forall j :: 0 <= j < n ==> rest[j] == rs[j] && rest[..j] == rs[..j];
    if Registered(rest, id, root) && !Ends(rs[n], id, root) {
      var j :| 0 <= j < n && rest[j] == Join(root) && Joins(rest[..j]) == id && NotEnded(rest, j, id, root);
      assert rs[j] == Join(root) && NotEnded(rs, j, id, root);
    }
    if Registered(rs, id, root) {
      var j :| 0 <= j < |rs| && rs[j] == Join(root) && Joins(rs[..j]) == id && NotEnded(rs, j, id, root);
      if j < n {
        assert rest[j] == Join(root) && NotEnded(rest, j, id, root);
      }
    }
    if rs[n] == Join(root) && Joins(rest) == id {
      assert rs[n] == Join(root) && NotEnded(rs, n, id, root);
    }
  }

  /** After any requests an id is in the list exactly when it was handed out and since then
      neither deregistered nor found without a reader by an event meant for it. */
  lemma {:induction false} ListedIffRegistered(rs: seq<Request>, id: Id, root: Pid)
    ensures Listed(AfterRequests(rs), id, root) <==> Registered(rs, id, root)
  {
    if |rs| > 0 {
      var rest, c := rs[..|rs| - 1], rs[|rs| - 1];
      ListedIffRegistered(rest, id, root);
      AlwaysDistinct(rest);
      IdsAreCounted(rest);
      RegisteredSnoc(rs, id, root);
      assert AfterRequests(rs) == Served(AfterRequests(rest), c);
      hide AfterRequests, Served, Registered, Listed, Distinct;
      StepLists(AfterRequests(rest), c, id, root);
    }
  }
}
