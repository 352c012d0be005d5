/** The dashboard metrics store: per-UID instance records with a time to live, swept on
    every report, against a store that never forgets. */
module Metrics {
  import opened Sets

  const STALE_MS: nat := 60_000
  const MAX_INSTANCES_PER_UID: nat := 1024
  const U64_MAX: nat := 0xffff_ffff_ffff_ffff

  type Uid = nat
  type Pid = nat
  type Time = nat
  type Key = (Uid, Pid)

  // ----- counters ----------------------------------------------------------------------

  datatype Counters = Counters(
    commands: nat, ghostAccepted: nat, ghostShown: nat, keystrokesSaved: nat,
    llmCalls: nat, guardWarn: nat, guardBlock: nat, guardRefused: nat)

  const ZERO := Counters(0, 0, 0, 0, 0, 0, 0, 0)

  function Cap(n: nat): nat { if n <= U64_MAX then n else U64_MAX }

  /** Field by field, what a u64 would hold at most. */
  function Clamp(a: Counters): Counters {
    Counters(Cap(a.commands), Cap(a.ghostAccepted), Cap(a.ghostShown), Cap(a.keystrokesSaved),
             Cap(a.llmCalls), Cap(a.guardWarn), Cap(a.guardBlock), Cap(a.guardRefused))
  }

  /** The exact field-wise sum. */
  function Plus(a: Counters, b: Counters): Counters {
    Counters(a.commands + b.commands, a.ghostAccepted + b.ghostAccepted, a.ghostShown + b.ghostShown,
             a.keystrokesSaved + b.keystrokesSaved, a.llmCalls + b.llmCalls, a.guardWarn + b.guardWarn,
             a.guardBlock + b.guardBlock, a.guardRefused + b.guardRefused)
  }

  function SaturatingAdd(a: nat, b: nat): nat { if a + b <= U64_MAX then a + b else U64_MAX }

  /** MetricsCounters::add. */
  function Add(a: Counters, b: Counters): Counters {
    Counters(SaturatingAdd(a.commands, b.commands), SaturatingAdd(a.ghostAccepted, b.ghostAccepted),
             SaturatingAdd(a.ghostShown, b.ghostShown), SaturatingAdd(a.keystrokesSaved, b.keystrokesSaved),
             SaturatingAdd(a.llmCalls, b.llmCalls), SaturatingAdd(a.guardWarn, b.guardWarn),
             SaturatingAdd(a.guardBlock, b.guardBlock), SaturatingAdd(a.guardRefused, b.guardRefused))
  }

  lemma AddClamps(a: Counters, b: Counters)
    ensures Add(Clamp(a), b) == Clamp(Plus(a, b))
  {
  }

  // ----- records -----------------------------------------------------------------------

  datatype Record = Record(cwd: string, shell: string, incognito: bool, lastSeen: Time, counters: Counters)
  type Bucket = map<Pid, Record>
  type Store = map<Uid, Bucket>
  type View = map<Key, Record>
  datatype Instance = Instance(uid: Uid, pid: Pid, record: Record)

  /** A record dated after `now` counts as fresh: the difference saturates at 0. */
  predicate IsFresh(r: Record, now: Time) {
    (if now >= r.lastSeen then now - r.lastSeen else 0) < STALE_MS
  }

  function Fresh(per: Bucket, now: Time): Bucket {
    map p | p in per && IsFresh(per[p], now) :: per[p]
  }

  function Swept(g: Store, now: Time): Store {
    map u | u in g && Fresh(g[u], now) != map[] :: Fresh(g[u], now)
  }

  function BucketOf(g: Store, uid: Uid): Bucket { if uid in g then g[uid] else map[] }

  /** One report: sweep, then insert unless a new PID would go over the cap. */
  function Reported(g: Store, now: Time, uid: Uid, pid: Pid, r: Record): Store {
    var h := Swept(g, now);
    var per := BucketOf(h, uid);
    if |per| >= MAX_INSTANCES_PER_UID && pid !in per then h else h[uid := per[pid := r]]
  }

  // ----- what a query sees ---------------------------------------------------------------

  function Selected(g: Store, uid: Uid, all: bool): Store {
    if all then g else if uid in g then map[uid := g[uid]] else map[]
  }

  function KeysOf(g: Store): set<Key> { set u, p | u in g && p in g[u] :: (u, p) }

  /** The records a query at `now` may use. */
  function FreshView(g: Store, now: Time): View {
    map k | k in KeysOf(g) && IsFresh(g[k.0][k.1], now) :: g[k.0][k.1]
  }

  /** The exact total over a view; the order does not matter. */
  ghost function Total(v: View): Counters {
    if v == map[] then ZERO else var k :| k in v; Plus(v[k].counters, Total(v - {k}))
  }

  lemma PlusSwaps(a: Counters, b: Counters, c: Counters)
    ensures Plus(a, Plus(b, c)) == Plus(b, Plus(a, c))
  {
  }

  lemma {:induction false} TotalWithout(v: View, k: Key)
    requires k in v
    ensures Total(v) == Plus(v[k].counters, Total(v - {k}))
    decreases v.Keys
  {
    var j :| j in v && Total(v) == Plus(v[j].counters, Total(v - {j}));
    if j != k {
      TotalWithout(v - {j}, k);
      TotalWithout(v - {k}, j);
      assert v - {j} - {k} == v - {k} - {j};
      PlusSwaps(v[j].counters, v[k].counters, Total(v - {j} - {k}));
    }
  }

  lemma TotalPut(v: View, k: Key, r: Record)
    requires k !in v
    ensures Total(v[k := r]) == Plus(Total(v), r.counters) && |v[k := r]| == |v| + 1
  {
    TotalWithout(v[k := r], k);
    assert v[k := r] - {k} == v;
    assert v[k := r].Keys == v.Keys + {k};
  }

  /** `out` lists the view, every record once. */
  ghost predicate Lists(out: seq<Instance>, v: View) {
    && |out| == |v|
    && (forall i :: 0 <= i < |out| ==> (out[i].uid, out[i].pid) in v && v[(out[i].uid, out[i].pid)] == out[i].record)
    && (forall i, j :: 0 <= i < j < |out| ==> (out[i].uid, out[i].pid) != (out[j].uid, out[j].pid))
  }

  /** `agg` and `n` describe the view. */
  ghost predicate Describes(agg: Counters, n: nat, v: View) {
    agg == Clamp(Total(v)) && n == |v|
  }

  /** One field, summed over a view. */
  ghost function FieldSum(v: View, field: Counters -> nat): nat {
    if v == map[] then 0 else var k :| k in v; field(v[k].counters) + FieldSum(v - {k}, field)
  }

  lemma {:induction false} FieldSumWithout(v: View, field: Counters -> nat, k: Key)
    requires k in v
    ensures FieldSum(v, field) == field(v[k].counters) + FieldSum(v - {k}, field)
    decreases v.Keys
  {
    var j :| j in v && FieldSum(v, field) == field(v[j].counters) + FieldSum(v - {j}, field);
    if j != k {
      FieldSumWithout(v - {j}, field, k);
      FieldSumWithout(v - {k}, field, j);
      assert v - {j} - {k} == v - {k} - {j};
    }
  }

  lemma {:induction false} TotalIsFieldSum(v: View, field: Counters -> nat)
    requires field(ZERO) == 0 && forall a, b :: field(Plus(a, b)) == field(a) + field(b)
    ensures field(Total(v)) == FieldSum(v, field)
    decreases v.Keys
  {
    if v != map[] {
      var k :| k in v && Total(v) == Plus(v[k].counters, Total(v - {k}));
      TotalIsFieldSum(v - {k}, field);
      FieldSumWithout(v, field, k);
    }
  }

  function Bounded64(n: nat): nat { if n < 0x1_0000_0000_0000_0000 then n else 0xffff_ffff_ffff_ffff }

  /** Field by field, the aggregate is the sum over the view, held at 2^64 - 1. */
  lemma AggregateFields(agg: Counters, n: nat, v: View)
    requires Describes(agg, n, v)
    ensures && agg.commands == Bounded64(FieldSum(v, (c: Counters) => c.commands))
            && agg.ghostAccepted == Bounded64(FieldSum(v, (c: Counters) => c.ghostAccepted))
            && agg.ghostShown == Bounded64(FieldSum(v, (c: Counters) => c.ghostShown))
            && agg.keystrokesSaved == Bounded64(FieldSum(v, (c: Counters) => c.keystrokesSaved))
            && agg.llmCalls == Bounded64(FieldSum(v, (c: Counters) => c.llmCalls))
            && agg.guardWarn == Bounded64(FieldSum(v, (c: Counters) => c.guardWarn))
            && agg.guardBlock == Bounded64(FieldSum(v, (c: Counters) => c.guardBlock))
            && agg.guardRefused == Bounded64(FieldSum(v, (c: Counters) => c.guardRefused))
  {
    TotalIsFieldSum(v, (c: Counters) => c.commands);
    TotalIsFieldSum(v, (c: Counters) => c.ghostAccepted);
    TotalIsFieldSum(v, (c: Counters) => c.ghostShown);
    TotalIsFieldSum(v, (c: Counters) => c.keystrokesSaved);
    TotalIsFieldSum(v, (c: Counters) => c.llmCalls);
    TotalIsFieldSum(v, (c: Counters) => c.guardWarn);
    TotalIsFieldSum(v, (c: Counters) => c.guardBlock);
    TotalIsFieldSum(v, (c: Counters) => c.guardRefused);
    hide Total, FieldSum;
  }

  lemma DescribeMore(agg: Counters, n: nat, v: View, k: Key, r: Record)
    requires Describes(agg, n, v) && k !in v
    ensures Describes(Add(agg, r.counters), n + 1, v[k := r])
  {
    TotalPut(v, k, r);
    AddClamps(Total(v), r.counters);
    hide Total, Add, Clamp, Plus;
  }

  lemma ListMore(out: seq<Instance>, v: View, k: Key, r: Record)
    requires Lists(out, v) && k !in v
    ensures Lists(out + [Instance(k.0, k.1, r)], v[k := r])
  {
    assert v[k := r].Keys == v.Keys + {k};
  }

  // ----- the class -----------------------------------------------------------------------

  class MetricsStore {
    var inner: Store

    constructor ()
      ensures inner == map[]
    {
      inner := map[];
    }

    method Report(now: Time, uid: Uid, pid: Pid, cwd: string, shell: string, incognito: bool, counters: Counters)
      modifies this
      ensures inner == Reported(old(inner), now, uid, pid, Record(cwd, shell, incognito, now, counters))
    {
      inner := Sweep(inner, now);
      var per := if uid in inner then inner[uid] else map[];
      if |per| >= MAX_INSTANCES_PER_UID && pid !in per {
        return;
      }
      inner := inner[uid := per[pid := Record(cwd, shell, incognito, now, counters)]];
    }

    method Instances(now: Time, uid: Uid, all: bool) returns (out: seq<Instance>)
      ensures Lists(out, FreshView(Selected(inner, uid, all), now))
    {
      var buckets := Selected(inner, uid, all);
      ghost var seen: View := map[];
      out := [];
      var todo := buckets.Keys;
      VisitNone(buckets, now);
      while todo != {}
        invariant todo <= buckets.Keys && Lists(out, seen) && Visited(seen, buckets, now, todo)
      {
        var u :| u in todo;
        out, seen := ListBucket(u, buckets, now, todo, out, seen);
        todo := todo - {u};
      }
      VisitAll(seen, buckets, now);
    }

    method Aggregate(now: Time, uid: Uid, all: bool) returns (agg: Counters, n: nat)
      ensures Describes(agg, n, FreshView(Selected(inner, uid, all), now))
    {
      var buckets := Selected(inner, uid, all);
      ghost var seen: View := map[];
      agg, n := ZERO, 0;
      var todo := buckets.Keys;
      VisitNone(buckets, now);
      while todo != {}
        invariant todo <= buckets.Keys && Describes(agg, n, seen) && Visited(seen, buckets, now, todo)
      {
        var u :| u in todo;
        agg, n, seen := AddBucket(u, buckets, now, todo, agg, n, seen);
        todo := todo - {u};
      }
      VisitAll(seen, buckets, now);
    }
  }

  /** The visited part of a query's view: the buckets outside `todo`. */
  ghost predicate Visited(v: View, g: Store, now: Time, todo: set<Uid>) {
    && (forall k :: k in v <==> k in FreshView(g, now) && k.0 !in todo)
    && forall k :: k in v ==> v[k] == FreshView(g, now)[k]
  }

  /** Within bucket `u`, the visited part leaves out the PIDs in `left`. */
  ghost predicate VisitedIn(v: View, g: Store, now: Time, todo: set<Uid>, u: Uid, left: set<Pid>) {
    && (forall k :: k in v <==> k in FreshView(g, now) && (k.0 !in todo || (k.0 == u && k.1 !in left)))
    && forall k :: k in v ==> v[k] == FreshView(g, now)[k]
  }

  lemma VisitNone(g: Store, now: Time)
    ensures Visited(map[], g, now, g.Keys)
  {
  }

  lemma VisitAll(v: View, g: Store, now: Time)
    requires Visited(v, g, now, {})
    ensures v == FreshView(g, now)
  {
  }

  lemma EnterBucket(v: View, g: Store, now: Time, todo: set<Uid>, u: Uid)
    requires Visited(v, g, now, todo) && u in todo && u in g
    ensures VisitedIn(v, g, now, todo, u, g[u].Keys)
  {
  }

  lemma LeaveBucket(v: View, g: Store, now: Time, todo: set<Uid>, u: Uid)
    requires VisitedIn(v, g, now, todo, u, {}) && u in todo
    ensures Visited(v, g, now, todo - {u})
  {
  }

  lemma VisitOne(v: View, g: Store, now: Time, todo: set<Uid>, u: Uid, left: set<Pid>, p: Pid)
    requires VisitedIn(v, g, now, todo, u, left) && u in todo && u in g && p in left && p in g[u]
    ensures (u, p) !in v
    ensures VisitedIn(if IsFresh(g[u][p], now) then v[(u, p) := g[u][p]] else v, g, now, todo, u, left - {p})
  {
    assert (u, p) in KeysOf(g);
    hide IsFresh;
  }

  method ListBucket(u: Uid, g: Store, now: Time, ghost todo: set<Uid>, start: seq<Instance>, ghost before: View)
    returns (out: seq<Instance>, ghost seen: View)
    requires u in todo && u in g && Lists(start, before) && Visited(before, g, now, todo)
    ensures Lists(out, seen) && Visited(seen, g, now, todo - {u})
  {
    out, seen := start, before;
    var per := g[u];
    var left := per.Keys;
    EnterBucket(seen, g, now, todo, u);
    hide Lists, Visited, VisitedIn;
    while left != {}
      invariant left <= per.Keys && Lists(out, seen) && VisitedIn(seen, g, now, todo, u, left)
    {
      var p :| p in left;
      VisitOne(seen, g, now, todo, u, left, p);
      var r := per[p];
      left := left - {p};
      if (if now >= r.lastSeen then now - r.lastSeen else 0) >= STALE_MS {
        continue;
      }
      ListMore(out, seen, (u, p), r);
      out := out + [Instance(u, p, r)];
      seen := seen[(u, p) := r];
    }
    LeaveBucket(seen, g, now, todo, u);
  }

  method AddBucket(u: Uid, g: Store, now: Time, ghost todo: set<Uid>, start: Counters, count: nat, ghost before: View)
    returns (agg: Counters, n: nat, ghost seen: View)
    requires u in todo && u in g && Describes(start, count, before) && Visited(before, g, now, todo)
    ensures Describes(agg, n, seen) && Visited(seen, g, now, todo - {u})
  {
    agg, n, seen := start, count, before;
    var per := g[u];
    var left := per.Keys;
    EnterBucket(seen, g, now, todo, u);
    hide Describes, Visited, VisitedIn;
    while left != {}
      invariant left <= per.Keys && Describes(agg, n, seen) && VisitedIn(seen, g, now, todo, u, left)
    {
      var p :| p in left;
      VisitOne(seen, g, now, todo, u, left, p);
      var r := per[p];
      left := left - {p};
      if (if now >= r.lastSeen then now - r.lastSeen else 0) >= STALE_MS {
        continue;
      }
      DescribeMore(agg, n, seen, (u, p), r);
      agg := Add(agg, r.counters);
      n := n + 1;
      seen := seen[(u, p) := r];
    }
    LeaveBucket(seen, g, now, todo, u);
  }

  /** `retain` over one bucket. */
  method RetainFresh(per: Bucket, now: Time) returns (kept: Bucket)
    ensures kept == Fresh(per, now)
  {
    kept := per;
    var left := per.Keys;
    while left != {}
      invariant left <= per.Keys && kept.Keys <= per.Keys
      invariant forall p :: p in per ==> (p in kept <==> p in left || IsFresh(per[p], now))
      invariant forall p :: p in kept ==> kept[p] == per[p]
    {
      var p :| p in left;
      if !((if now >= per[p].lastSeen then now - per[p].lastSeen else 0) < STALE_MS) {
        kept := kept - {p};
      }
      left := left - {p};
    }
  }

  /** `retain` over all buckets, emptied ones dropped. */
  method Sweep(g: Store, now: Time) returns (swept: Store)
    ensures swept == Swept(g, now)
  {
    swept := map[];
    var left := g.Keys;
    hide Fresh;
    while left != {}
      invariant left <= g.Keys
      invariant forall u :: u in swept <==> u in g && u !in left && Fresh(g[u], now) != map[]
      invariant forall u :: u in swept ==> swept[u] == Fresh(g[u], now)
    {
      var u :| u in left;
      var per := RetainFresh(g[u], now);
      if per != map[] {
        swept := swept[u := per];
      }
      left := left - {u};
    }
  }

  // ----- sweeping changes no answer ------------------------------------------------------

  /** The reference store keeps every record it took, for ever. */
  function FreshOf(v: View, uid: Uid, now: Time): set<Pid> {
    set k | k in v && k.0 == uid && IsFresh(v[k], now) :: k.1
  }

  function ReportedPlain(v: View, now: Time, uid: Uid, pid: Pid, r: Record): View {
    var live := FreshOf(v, uid, now);
    if |live| >= MAX_INSTANCES_PER_UID && pid !in live then v else v[(uid, pid) := r]
  }

  /** What the reference answers from: its fresh records, of one UID or of all. */
  function PlainView(v: View, uid: Uid, all: bool, now: Time): View {
    map k | k in v && (all || k.0 == uid) && IsFresh(v[k], now) :: v[k]
  }

  /** A record is fresh for a minute after it was received, and before. */
  lemma FreshForAMinute(r: Record, now: Time)
    ensures IsFresh(r, now) <==> now < r.lastSeen + 60_000
  {
  }

  lemma StaleStays(r: Record, t: Time, now: Time)
    requires t <= now && IsFresh(r, now)
    ensures IsFresh(r, t)
  {
  }

  datatype Report = Report(now: Time, uid: Uid, pid: Pid, cwd: string, shell: string,
    incognito: bool, counters: Counters)

  function RecordOf(q: Report): Record { Record(q.cwd, q.shell, q.incognito, q.now, q.counters) }

  ghost predicate Monotone(qs: seq<Report>) {
    forall i, j :: 0 <= i < j < |qs| ==> qs[i].now <= qs[j].now
  }

  function Stored(qs: seq<Report>): Store {
    if qs == [] then map[]
    else
      var q := qs[|qs| - 1];
      Reported(Stored(qs[..|qs| - 1]), q.now, q.uid, q.pid, RecordOf(q))
  }

  function Remembered(qs: seq<Report>): View {
    if qs == [] then map[]
    else
      var q := qs[|qs| - 1];
      ReportedPlain(Remembered(qs[..|qs| - 1]), q.now, q.uid, q.pid, RecordOf(q))
  }

  function LastTime(qs: seq<Report>): Time { if qs == [] then 0 else qs[|qs| - 1].now }

  ghost predicate Bounded(g: Store, now: Time) {
    forall u :: u in g ==>
      0 < |g[u]| <= 1024 && forall p :: p in g[u] ==> IsFresh(g[u][p], now)
  }

  lemma FreshShrinks(per: Bucket, now: Time)
    ensures Fresh(per, now).Keys <= per.Keys && |Fresh(per, now)| <= |per|
  {
    SubsetSize(Fresh(per, now).Keys, per.Keys);
  }

  lemma SweepBounds(g: Store, now: Time)
    requires forall u :: u in g ==> |g[u]| <= MAX_INSTANCES_PER_UID
    ensures Bounded(Swept(g, now), now)
  {
    forall u | u in Swept(g, now) ensures 0 < |Swept(g, now)[u]| <= MAX_INSTANCES_PER_UID {
      FreshShrinks(g[u], now);
    }
  }

  /** After every report, whatever the clock does, no bucket is empty or over the cap and
      no record in it is stale. */
  lemma {:induction false} StoreStaysBounded(qs: seq<Report>)
    ensures Bounded(Stored(qs), LastTime(qs))
  {
    if qs != [] {
      var rest, q := qs[..|qs| - 1], qs[|qs| - 1];
      StoreStaysBounded(rest);
      SweepBounds(Stored(rest), q.now);
      var h := Swept(Stored(rest), q.now);
      assert Stored(qs) == Reported(Stored(rest), q.now, q.uid, q.pid, RecordOf(q));
      hide Swept, Stored;
      InsertBounds(h, q);
    }
  }

  lemma InsertBounds(h: Store, q: Report)
    requires Bounded(h, q.now)
    ensures var per := BucketOf(h, q.uid);
            |per| < MAX_INSTANCES_PER_UID || q.pid in per ==> Bounded(h[q.uid := per[q.pid := RecordOf(q)]], q.now)
  {
    var per := BucketOf(h, q.uid);
    var per' := per[q.pid := RecordOf(q)];
    assert per'.Keys == per.Keys + {q.pid} && |per'| == |per'.Keys| && |per| == |per.Keys|;
  }

  lemma FirstReport(q: Report)
    ensures Stored([q]) == map[q.uid := map[q.pid := RecordOf(q)]]
            && Remembered([q]) == map[(q.uid, q.pid) := RecordOf(q)]
  {
    assert [q][..0] == [];
    var none: Store := map[];
    assert Swept(none, q.now) == map[];
    var nothing: View := map[];
    assert FreshOf(nothing, q.uid, q.now) == {};
  }

  /** A record that one report sweeps is missing from every later query for which it would
      still be fresh. */
  lemma SweptTooEarly(q1: Report, q2: Report, now: Time)
    requires !IsFresh(RecordOf(q1), q2.now) && q1.uid != q2.uid && IsFresh(RecordOf(q1), now)
    ensures (q1.uid, q1.pid) !in FreshView(Selected(Stored([q1, q2]), q1.uid, false), now)
    ensures (q1.uid, q1.pid) in PlainView(Remembered([q1, q2]), q1.uid, false, now)
  {
    var qs := [q1, q2];
    assert qs[..1] == [q1];
    FirstReport(q1);
    var g, v := Stored([q1]), Remembered([q1]);
    assert Stored(qs) == Reported(g, q2.now, q2.uid, q2.pid, RecordOf(q2));
    assert Remembered(qs) == ReportedPlain(v, q2.now, q2.uid, q2.pid, RecordOf(q2));
    hide Stored, Remembered, IsFresh;
    Forgotten(g, q1.uid, q2);
    StillRemembered(v, (q1.uid, q1.pid), q2, now);
    hide Reported, ReportedPlain, PlainView;
  }

  lemma StillRemembered(v: View, k: Key, q: Report, now: Time)
    requires k in v && k.0 != q.uid && IsFresh(v[k], now)
    ensures k in PlainView(ReportedPlain(v, q.now, q.uid, q.pid, RecordOf(q)), k.0, false, now)
  {
    hide FreshOf;
  }

  lemma Forgotten(g: Store, u: Uid, q: Report)
    requires u in g && u != q.uid && forall p :: p in g[u] ==> !IsFresh(g[u][p], q.now)
    ensures u !in Reported(g, q.now, q.uid, q.pid, RecordOf(q))
  {
    assert Fresh(g[u], q.now) == map[];
  }

  // ----- any order of clock readings -------------------------------------------------------

  function KeyOf(q: Report): Key { (q.uid, q.pid) }

  predicate Fits(pids: set<Pid>, pid: Pid) { |pids| < MAX_INSTANCES_PER_UID || pid in pids }

  /** The store takes the report; the store that never sweeps takes it. */
  predicate Takes(g: Store, q: Report) { Fits(BucketOf(Swept(g, q.now), q.uid).Keys, q.pid) }

  predicate TakesPlain(v: View, q: Report) { Fits(FreshOf(v, q.uid, q.now), q.pid) }

  /** Both stores always took or turned away the same reports. */
  ghost predicate SameDecisions(qs: seq<Report>) {
    qs == [] ||
    var rest, q := qs[..|qs| - 1], qs[|qs| - 1];
    SameDecisions(rest) && (Takes(Stored(rest), q) <==> TakesPlain(Remembered(rest), q))
  }

  /** The last report for `k` that was taken, or -1. */
  function LastIndex(qs: seq<Report>, k: Key): (i: int)
    ensures -1 <= i < |qs| && (i >= 0 ==> KeyOf(qs[i]) == k)
  {
    if qs == [] then -1
    else
      var rest, q := qs[..|qs| - 1], qs[|qs| - 1];
      if KeyOf(q) == k && TakesPlain(Remembered(rest), q) then |qs| - 1 else LastIndex(rest, k)
  }

  /** Every report after `i`, taken or not, found that record fresh. */
  ghost predicate Kept(qs: seq<Report>, i: nat)
    requires i < |qs|
  {
    forall j :: i < j < |qs| ==> IsFresh(RecordOf(qs[i]), qs[j].now)
  }

  predicate Has(g: Store, k: Key) { k.0 in g && k.1 in g[k.0] }

  lemma HasSwept(g: Store, now: Time, k: Key)
    ensures Has(Swept(g, now), k) <==> Has(g, k) && IsFresh(g[k.0][k.1], now)
    ensures Has(Swept(g, now), k) ==> Swept(g, now)[k.0][k.1] == g[k.0][k.1]
  {
    hide IsFresh;
    if Has(g, k) && IsFresh(g[k.0][k.1], now) {
      assert k.1 in Fresh(g[k.0], now);
    }
  }

  lemma HasReported(g: Store, q: Report, k: Key)
    ensures var g', taken := Reported(g, q.now, q.uid, q.pid, RecordOf(q)), Takes(g, q) && k == KeyOf(q);
            && (Has(g', k) <==> taken || (Has(g, k) && IsFresh(g[k.0][k.1], q.now)))
            && (Has(g', k) ==> g'[k.0][k.1] == if taken then RecordOf(q) else g[k.0][k.1])
  {
    HasSwept(g, q.now, k);
    var h := Swept(g, q.now);
    hide Swept, IsFresh;
    var per := BucketOf(h, q.uid);
    assert |per| == |per.Keys|;
    assert k == (k.0, k.1);
  }

  /** What the store holds: the last record taken for a key, as long as no later report swept
      it. */
  lemma {:induction false} StoredHas(qs: seq<Report>, k: Key)
    requires SameDecisions(qs)
    ensures var i := LastIndex(qs, k);
            && (Has(Stored(qs), k) <==> i >= 0 && Kept(qs, i))
            && (Has(Stored(qs), k) ==> Stored(qs)[k.0][k.1] == RecordOf(qs[i]))
  {
    if qs != [] {
      var rest, q := qs[..|qs| - 1], qs[|qs| - 1];
      StoredHas(rest, k);
      HasReported(Stored(rest), q, k);
      hide Reported, IsFresh, Has, Takes, TakesPlain;
      var i := LastIndex(qs, k);
      if 0 <= i < |rest| {
        KeptSnoc(qs, i);
      }
    }
  }

  lemma KeptSnoc(qs: seq<Report>, i: nat)
    requires i < |qs| - 1
    ensures Kept(qs, i) <==> Kept(qs[..|qs| - 1], i) && IsFresh(RecordOf(qs[i]), qs[|qs| - 1].now)
  {
    hide IsFresh;
    var rest := qs[..|qs| - 1];
    assert forall j :: 0 <= j < |rest| ==> rest[j] == qs[j];
  }

  lemma {:induction false} RememberedHas(qs: seq<Report>, k: Key)
    ensures var i := LastIndex(qs, k);
            && (k in Remembered(qs) <==> i >= 0)
            && (i >= 0 ==> Remembered(qs)[k] == RecordOf(qs[i]))
  {
    if qs != [] {
      RememberedHas(qs[..|qs| - 1], k);
      hide FreshOf;
    }
  }

  /** The record of report `i`, the last taken for its key, is fresh at `now` although some
      later report found it stale and swept it. */
  ghost predicate Overtaken(qs: seq<Report>, i: nat, now: Time) {
    i < |qs| && LastIndex(qs, KeyOf(qs[i])) == i && IsFresh(RecordOf(qs[i]), now) && !Kept(qs, i)
  }

  /** With clock readings in any order: a query at `now` sees what the store that never sweeps
      would show exactly when no selected record that is fresh at `now` was stale at the time
      of a report after it. */
  lemma AnswersAgreeIff(qs: seq<Report>, uid: Uid, all: bool, now: Time)
    requires SameDecisions(qs)
    ensures FreshView(Selected(Stored(qs), uid, all), now) == PlainView(Remembered(qs), uid, all, now) <==>
              forall i :: 0 <= i < |qs| && (all || qs[i].uid == uid) ==> !Overtaken(qs, i, now)
  {
    hide FreshView, PlainView, Selected, Stored, Remembered, SameDecisions, IsFresh, Kept, RecordOf;
    var a, b := FreshView(Selected(Stored(qs), uid, all), now), PlainView(Remembered(qs), uid, all, now);
    if a == b {
      forall i | 0 <= i < |qs| && (all || qs[i].uid == uid) ensures !Overtaken(qs, i, now) {
        InViews(qs, uid, all, now, KeyOf(qs[i]));
      }
    } else if forall i :: 0 <= i < |qs| && (all || qs[i].uid == uid) ==> !Overtaken(qs, i, now) {
      forall k: Key ensures (k in a <==> k in b) && (k in a ==> a[k] == b[k]) {
        InViews(qs, uid, all, now, k);
        hide LastIndex;
        var i := LastIndex(qs, k);
        assert i >= 0 ==> KeyOf(qs[i]) == k;
      }
      SameViews(a, b);
    }
  }

  lemma SameViews(a: View, b: View)
    requires forall k: Key :: (k in a <==> k in b) && (k in a ==> a[k] == b[k])
    ensures a == b
  {
  }

  lemma InViews(qs: seq<Report>, uid: Uid, all: bool, now: Time, k: Key)
    requires SameDecisions(qs)
    ensures var a, b := FreshView(Selected(Stored(qs), uid, all), now), PlainView(Remembered(qs), uid, all, now);
            var i := LastIndex(qs, k);
            && (k in b <==> i >= 0 && (all || k.0 == uid) && IsFresh(RecordOf(qs[i]), now))
            && (k in a <==> k in b && Kept(qs, i))
            && (k in a ==> a[k] == b[k])
  {
    StoredHas(qs, k);
    RememberedHas(qs, k);
    var g := Stored(qs);
    var sel := Selected(g, uid, all);
    hide Stored, Remembered, SameDecisions, LastIndex, Kept, IsFresh;
    assert k == (k.0, k.1);
    assert Has(sel, k) <==> Has(g, k) && (all || k.0 == uid);
    assert k in KeysOf(sel) <==> Has(sel, k);
  }

  // ----- when both stores decide alike ------------------------------------------------------

  /** At the time of this report neither store would show the reporting user anything the
      other would not. */
  ghost predicate Undisturbed(rest: seq<Report>, q: Report) {
    forall i :: 0 <= i < |rest| && rest[i].uid == q.uid ==> !Overtaken(rest, i, q.now)
  }

  /** The two stores first decide differently only at a report that comes after an overtaken
      record of the same user. */
  lemma SameDecisionUnlessOvertaken(rest: seq<Report>, q: Report)
    requires SameDecisions(rest) && Undisturbed(rest, q)
    ensures Takes(Stored(rest), q) <==> TakesPlain(Remembered(rest), q)
  {
    AnswersAgreeIff(rest, q.uid, false, q.now);
    hide SameDecisions, Undisturbed;
    var g, v := Stored(rest), Remembered(rest);
    hide Stored, Remembered, Overtaken;
    PidsInView(g, v, q.uid, q.now);
  }

  lemma PidsInView(g: Store, v: View, uid: Uid, now: Time)
    requires FreshView(Selected(g, uid, false), now) == PlainView(v, uid, false, now)
    ensures BucketOf(Swept(g, now), uid).Keys == FreshOf(v, uid, now)
  {
    var sel := Selected(g, uid, false);
    var bucket, fresh' := BucketOf(Swept(g, now), uid).Keys, FreshOf(v, uid, now);
    forall p: Pid ensures p in bucket <==> p in fresh' {
      var k := (uid, p);
      HasSwept(g, now, k);
      hide Swept, IsFresh;
      assert p in bucket <==> Has(Swept(g, now), k);
      assert k in KeysOf(sel) <==> Has(g, k);
      assert k in FreshView(sel, now) <==> Has(g, k) && IsFresh(g[uid][p], now);
      assert k in PlainView(v, uid, false, now) <==> p in fresh';
    }
  }

  /** So without overtaking at any report, both stores decide alike throughout. */
  lemma {:induction false} UndisturbedSameDecisions(qs: seq<Report>)
    requires AlwaysUndisturbed(qs)
    ensures SameDecisions(qs)
  {
    if qs != [] {
      var n := |qs| - 1;
      var rest := qs[..n];
      forall m | 0 <= m < |rest| ensures Undisturbed(rest[..m], rest[m]) {
        assert rest[..m] == qs[..m];
      }
      UndisturbedSameDecisions(rest);
      hide Takes, TakesPlain;
      SameDecisionUnlessOvertaken(rest, qs[n]);
    }
  }

  ghost predicate Agree(qs: seq<Report>, uid: Uid, all: bool, now: Time) {
    FreshView(Selected(Stored(qs), uid, all), now) == PlainView(Remembered(qs), uid, all, now)
  }

  ghost predicate AlwaysUndisturbed(qs: seq<Report>) {
    forall n :: 0 <= n < |qs| ==> Undisturbed(qs[..n], qs[n])
  }

  ghost predicate AlwaysAgree(qs: seq<Report>) {
    forall n :: 0 <= n < |qs| ==> Agree(qs[..n], qs[n].uid, false, qs[n].now)
  }

  /** With the cap and any readings whatever: both stores show every reporting user the same at
      the time of each of its reports exactly when no report comes after an overtaken record of
      its user. */
  lemma {:induction false} AlwaysAgreeIff(qs: seq<Report>)
    ensures AlwaysAgree(qs) <==> AlwaysUndisturbed(qs)
  {
    if qs != [] {
      hide *;
      var rest, q := qs[..|qs| - 1], qs[|qs| - 1];
      AlwaysAgreeIff(rest);
      SplitLast(qs);
      if AlwaysUndisturbed(rest) {
        AgreeHereIff(rest, q);
      }
    }
  }

  lemma AgreeHereIff(rest: seq<Report>, q: Report)
    requires AlwaysUndisturbed(rest)
    ensures Agree(rest, q.uid, false, q.now) <==> Undisturbed(rest, q)
  {
    UndisturbedSameDecisions(rest);
    hide SameDecisions, AlwaysUndisturbed, FreshView, PlainView, Selected, Stored, Remembered, Overtaken;
    AnswersAgreeIff(rest, q.uid, false, q.now);
  }

  lemma SplitLast(qs: seq<Report>)
    requires qs != []
    ensures var rest, q := qs[..|qs| - 1], qs[|qs| - 1];
            && (AlwaysUndisturbed(qs) <==> AlwaysUndisturbed(rest) && Undisturbed(rest, q))
            && (AlwaysAgree(qs) <==> AlwaysAgree(rest) && Agree(rest, q.uid, false, q.now))
  {
    hide Agree, Undisturbed;
    var m := |qs| - 1;
    assert forall n :: 0 <= n < m ==> qs[..m][..n] == qs[..n] && qs[..m][n] == qs[n];
  }

  /** A clock read in lock order never overtakes. */
  lemma MonotoneNeverOvertakes(qs: seq<Report>, i: nat, now: Time)
    requires Monotone(qs) && LastTime(qs) <= now
    ensures !Overtaken(qs, i, now)
  {
    if i < |qs| && IsFresh(RecordOf(qs[i]), now) {
      forall j | i < j < |qs| ensures IsFresh(RecordOf(qs[i]), qs[j].now) {
        assert qs[j].now <= now;
        StaleStays(RecordOf(qs[i]), qs[j].now, now);
      }
    }
  }

  /** When readings reach the store in lock order, every query sees what the store that never
      sweeps would show, so lists, sums and counts are the same. */
  lemma SweepingIsInvisible(qs: seq<Report>, uid: Uid, all: bool, now: Time)
    requires Monotone(qs) && LastTime(qs) <= now
    ensures FreshView(Selected(Stored(qs), uid, all), now) == PlainView(Remembered(qs), uid, all, now)
  {
    forall n | 0 <= n < |qs| ensures Undisturbed(qs[..n], qs[n]) {
      forall i | 0 <= i < |qs[..n]| ensures !Overtaken(qs[..n], i, qs[n].now) {
        MonotoneNeverOvertakes(qs[..n], i, qs[n].now);
      }
    }
    UndisturbedSameDecisions(qs);
    forall i | 0 <= i < |qs| ensures !Overtaken(qs, i, now) {
      MonotoneNeverOvertakes(qs, i, now);
    }
    hide SameDecisions, Overtaken, Undisturbed;
    AnswersAgreeIff(qs, uid, all, now);
  }

  function Pids(qs: seq<Report>, uid: Uid): set<Pid> { set q | q in qs && q.uid == uid :: q.pid }

  /** Users that never report more than 1024 PIDs are never turned away by either store. */
  lemma {:induction false} FewPidsSameDecisions(qs: seq<Report>)
    requires forall u :: |Pids(qs, u)| <= 1024
    ensures SameDecisions(qs)
  {
    if qs != [] {
      var rest, q := qs[..|qs| - 1], qs[|qs| - 1];
      forall u ensures |Pids(rest, u)| <= MAX_INSTANCES_PER_UID {
        SubsetSize(Pids(rest, u), Pids(qs, u));
      }
      FewPidsSameDecisions(rest);
      var pids := Pids(qs, q.uid);
      assert q.pid in pids;
      var b, f := BucketOf(Swept(Stored(rest), q.now), q.uid).Keys, FreshOf(Remembered(rest), q.uid, q.now);
      forall p | p in b || p in f ensures p in pids {
        KnownPid(rest, q, p);
      }
      hide BucketOf, FreshOf, Swept, Pids;
      FitsWithin(b, pids, q.pid);
      FitsWithin(f, pids, q.pid);
    }
  }

  lemma FitsWithin(some: set<Pid>, pids: set<Pid>, pid: Pid)
    requires some <= pids && pid in pids && |pids| <= MAX_INSTANCES_PER_UID
    ensures Fits(some, pid)
  {
    SubsetSize(some, pids - {pid} + if pid in some then {pid} else {});
  }

  lemma KnownPid(rest: seq<Report>, q: Report, p: Pid)
    requires SameDecisions(rest)
    requires || p in BucketOf(Swept(Stored(rest), q.now), q.uid).Keys
             || p in FreshOf(Remembered(rest), q.uid, q.now)
    ensures p in Pids(rest + [q], q.uid)
  {
    var k := (q.uid, p);
    HasSwept(Stored(rest), q.now, k);
    StoredHas(rest, k);
    RememberedHas(rest, k);
    hide Stored, Remembered, SameDecisions, Swept;
    var i := LastIndex(rest, k);
    assert i >= 0;
    assert rest[i] in rest + [q];
  }
}
