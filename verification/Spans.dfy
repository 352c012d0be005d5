/** Counting distinct signals: hits whose byte spans overlap describe one behaviour, so
    the classifier sorts the spans by start and sweeps once over them. */
module Spans {

  datatype Span = Span(start: nat, end: nat)

  predicate Overlap(a: Span, b: Span) {
    a.start < b.end && b.start < a.end
  }

  predicate Nonempty(spans: seq<Span>) {
    forall i :: 0 <= i < |spans| ==> spans[i].start < spans[i].end
  }

  function Members(spans: seq<Span>): set<Span> {
    set x | x in spans
  }

  // ----- the overlap graph ------------------------------------------------------

  ghost predicate Path(S: set<Span>, p: seq<Span>) {
    && p != []
    && (forall i :: 0 <= i < |p| ==> p[i] in S)
    && forall i, j :: 0 <= i && j == i + 1 && j < |p| ==> Overlap(p[i], p[j])
  }

  ghost predicate Joined(S: set<Span>, a: Span, b: Span) {
    exists p :: Path(S, p) && p[0] == a && p[|p| - 1] == b
  }

  ghost function Component(S: set<Span>, a: Span): set<Span> {
    set b | b in S && Joined(S, a, b)
  }

  /** The connected components of the graph whose edges are overlaps. */
  ghost function Components(S: set<Span>): set<set<Span>> {
    set a | a in S :: Component(S, a)
  }

  // ----- sort and sweep ---------------------------------------------------------

  ghost predicate Sorted(q: seq<Span>) {
    forall i, j :: 0 <= i < j < |q| ==> q[i].start <= q[j].start
  }

  /** The library's stable sort on the start offset. */
  function SortByStart(q: seq<Span>): (r: seq<Span>)
    ensures Sorted(r) && multiset(r) == multiset(q) && |r| == |q|
  {
    if q == [] then [] else
      assert q == q[..|q| - 1] + [q[|q| - 1]];
      Insert(SortByStart(q[..|q| - 1]), q[|q| - 1])
  }

  function Insert(q: seq<Span>, x: Span): (r: seq<Span>)
    requires Sorted(q)
    ensures Sorted(r) && multiset(r) == multiset(q) + multiset{x} && |r| == |q| + 1
    ensures r[0] == x || (q != [] && r[0] == q[0])
  {
    if q == [] || x.start < q[0].start then [x] + q
    else
      assert q == [q[0]] + q[1..];
      [q[0]] + Insert(q[1..], x)
  }

  /** Groups opened so far and where the current one ends. */
  datatype Tally = Tally(groups: nat, curEnd: nat)

  /** The tally after the span at index `i`. */
  function At(q: seq<Span>, i: nat): Tally
    requires i < |q|
  {
    if i == 0 then Tally(1, q[0].end)
    else
      var t := At(q, i - 1);
      if q[i].start < t.curEnd then Tally(t.groups, if q[i].end > t.curEnd then q[i].end else t.curEnd)
      else Tally(t.groups + 1, q[i].end)
  }

  method SweepUp(spans: seq<Span>) returns (groups: nat)
    requires spans != []
    ensures groups == At(spans, |spans| - 1).groups
  {
    groups := 1;
    var curEnd: nat := spans[0].end;
    var i := 1;
    while i < |spans|
      invariant 1 <= i <= |spans| && Tally(groups, curEnd) == At(spans, i - 1)
    {
      var s, e := spans[i].start, spans[i].end;
      if s < curEnd {
        curEnd := if e > curEnd then e else curEnd;
      } else {
        groups := groups + 1;
        curEnd := e;
      }
      i := i + 1;
    }
  }

  /** For nonempty spans, in whatever order the hits come, the sweep counts the connected
      components of their overlap graph. */
  method DistinctSpanGroups(hits: seq<Span>) returns (groups: nat)
    ensures Nonempty(hits) ==> groups == |Components(Members(hits))|
  {
    if hits == [] {
      groups := 0;
      assert Components(Members(hits)) == {};
    } else {
      groups := SweepUp(SortByStart(hits));
      if Nonempty(hits) { SweepCountsComponents(hits); }
    }
  }

  // ----- the groups are the components ------------------------------------------

  /** The first index of the group that `i` is in. */
  function First(q: seq<Span>, i: nat): (f: nat)
    requires i < |q|
    ensures f <= i && At(q, f).groups == At(q, i).groups
  {
    if i == 0 || At(q, i).groups != At(q, i - 1).groups then i else First(q, i - 1)
  }

  lemma {:induction false} GroupsRise(q: seq<Span>, i: nat, j: nat)
    requires i <= j < |q|
    ensures 1 <= At(q, i).groups <= At(q, j).groups
    ensures At(q, i).groups == At(q, j).groups ==> First(q, i) == First(q, j)
    decreases j
  {
    if i < j {
      GroupsRise(q, i, j - 1);
    } else if 0 < j {
      GroupsRise(q, j - 1, j - 1);
    }
  }

  /** No span seen so far ends after the current group. */
  lemma {:induction false} EndCovers(q: seq<Span>, t: nat, i: nat)
    requires Nonempty(q) && t <= i < |q|
    ensures q[t].end <= At(q, i).curEnd
    decreases i
  {
    if t < i {
      EndCovers(q, t, i - 1);
    }
  }

  /** Some span of the current group ends where the group ends. */
  lemma {:induction false} EndReached(q: seq<Span>, i: nat) returns (t: nat)
    requires i < |q|
    ensures t <= i && At(q, t).groups == At(q, i).groups && q[t].end == At(q, i).curEnd
  {
    if i == 0 || At(q, i).curEnd == q[i].end {
      t := i;
    } else {
      t := EndReached(q, i - 1);
    }
  }

  /** Overlapping spans are in one group. */
  lemma {:induction false} OverlapSameGroup(q: seq<Span>, i: nat, t: nat, j: nat)
    requires Sorted(q) && Nonempty(q) && i <= t <= j < |q| && q[j].start < q[i].end
    ensures At(q, t).groups == At(q, i).groups
    decreases t
  {
    if i < t {
      OverlapSameGroup(q, i, t - 1, j);
      EndCovers(q, i, t - 1);
      assert t < j ==> q[t].start <= q[j].start;
    }
  }

  /** Every span has a route to the first span of its group. */
  lemma {:induction false} RouteToFirst(q: seq<Span>, j: nat) returns (p: seq<Span>)
    requires Sorted(q) && Nonempty(q) && j < |q|
    ensures Path(Members(q), p) && p[0] == q[j] && p[|p| - 1] == q[First(q, j)]
    decreases j
  {
    if First(q, j) == j {
      p := [q[j]];
    } else {
      var t := EndReached(q, j - 1);
      GroupsRise(q, t, j - 1);
      assert q[t].start <= q[j].start;
      var r := RouteToFirst(q, t);
      p := [q[j]] + r;
    }
  }

  lemma SameGroupJoined(q: seq<Span>, i: nat, j: nat)
    requires Sorted(q) && Nonempty(q) && i < |q| && j < |q| && At(q, i).groups == At(q, j).groups
    ensures Joined(Members(q), q[i], q[j])
  {
    if i <= j { GroupsRise(q, i, j); } else { GroupsRise(q, j, i); }
    var p := RouteToFirst(q, i);
    var r := RouteToFirst(q, j);
    Glue(Members(q), p, r);
  }

  lemma Glue(S: set<Span>, p: seq<Span>, r: seq<Span>)
    requires Path(S, p) && Path(S, r) && p[|p| - 1] == r[|r| - 1]
    ensures Joined(S, p[0], r[0])
  {
    var m := |p| + |r| - 1;
    var w := seq(m, k requires 0 <= k < m => if k < |p| then p[k] else r[m - 1 - k]);
    forall i, j | 0 <= i && j == i + 1 && j < |w| ensures Overlap(w[i], w[j]) {
      if j < |p| {
        assert Overlap(p[i], p[j]);
      } else {
        assert w[i] == r[m - 1 - i];
        assert Overlap(r[m - 1 - j], r[m - 1 - i]);
      }
    }
    assert Path(S, w) && w[0] == p[0] && w[|w| - 1] == r[0];
  }

  lemma {:induction false} PathStaysInGroup(q: seq<Span>, p: seq<Span>, i: nat, j: nat)
    requires Sorted(q) && Nonempty(q) && Path(Members(q), p) && i < |q| && j < |q|
    requires p[0] == q[i] && p[|p| - 1] == q[j]
    ensures At(q, i).groups == At(q, j).groups
    decreases |p|
  {
    var n := |p| - 1;
    if n == 0 {
      OverlapEither(q, i, j);
    } else {
      assert p[n - 1] in Members(q) && Overlap(p[n - 1], p[n]);
      var k :| 0 <= k < |q| && q[k] == p[n - 1];
      PathStaysInGroup(q, p[..n], i, k);
      OverlapEither(q, k, j);
    }
  }

  lemma OverlapEither(q: seq<Span>, i: nat, j: nat)
    requires Sorted(q) && Nonempty(q) && i < |q| && j < |q| && Overlap(q[i], q[j])
    ensures At(q, i).groups == At(q, j).groups
  {
    if i <= j { OverlapSameGroup(q, i, j, j); } else { OverlapSameGroup(q, j, i, i); }
  }

  ghost function Group(q: seq<Span>, k: nat): set<Span> {
    set j | 0 <= j < |q| && At(q, j).groups == k :: q[j]
  }

  lemma ComponentIsGroup(q: seq<Span>, i: nat)
    requires Sorted(q) && Nonempty(q) && i < |q|
    ensures Component(Members(q), q[i]) == Group(q, At(q, i).groups)
  {
    forall b | b in Component(Members(q), q[i]) ensures b in Group(q, At(q, i).groups) {
      var p :| Path(Members(q), p) && p[0] == q[i] && p[|p| - 1] == b;
      var j :| 0 <= j < |q| && q[j] == b;
      PathStaysInGroup(q, p, i, j);
    }
    forall b | b in Group(q, At(q, i).groups) ensures b in Component(Members(q), q[i]) {
      var j :| 0 <= j < |q| && At(q, j).groups == At(q, i).groups && q[j] == b;
      SameGroupJoined(q, i, j);
    }
  }

  /** Every number up to the tally is the group of some index. */
  lemma {:induction false} GroupInhabited(q: seq<Span>, i: nat, k: nat) returns (j: nat)
    requires i < |q| && 1 <= k <= At(q, i).groups
    ensures j <= i && At(q, j).groups == k
  {
    if At(q, i).groups == k { j := i; } else { j := GroupInhabited(q, i - 1, k); }
  }

  lemma {:induction false} DistinctCount<T>(xs: seq<T>)
    requires forall i, j :: 0 <= i < j < |xs| ==> xs[i] != xs[j]
    ensures |set x | x in xs| == |xs|
  {
    if xs != [] {
      var n := |xs| - 1;
      DistinctCount(xs[..n]);
      assert (set x | x in xs) == (set x | x in xs[..n]) + {xs[n]};
    }
  }

  /** Different group numbers are different sets, because equal spans share a group. */
  lemma GroupsDiffer(q: seq<Span>, k: nat, m: nat, i: nat)
    requires Sorted(q) && Nonempty(q) && i < |q| && At(q, i).groups == k && k != m
    ensures q[i] in Group(q, k) && q[i] !in Group(q, m)
  {
    forall j | 0 <= j < |q| && q[j] == q[i] ensures At(q, j).groups == k {
      OverlapEither(q, i, j);
    }
  }

  ghost function Groups(q: seq<Span>, n: nat): set<set<Span>> {
    if n == 0 then {} else Groups(q, n - 1) + {Group(q, n)}
  }

  lemma {:induction false} GroupsHolds(q: seq<Span>, n: nat, k: nat)
    requires 1 <= k <= n
    ensures Group(q, k) in Groups(q, n)
  {
    if k < n { GroupsHolds(q, n - 1, k); }
  }

  lemma {:induction false} GroupsListed(q: seq<Span>, n: nat, C: set<Span>) returns (k: nat)
    requires C in Groups(q, n)
    ensures 1 <= k <= n && C == Group(q, k)
  {
    if C == Group(q, n) { k := n; } else { k := GroupsListed(q, n - 1, C); }
  }

  lemma {:induction false} NumberOfGroups(q: seq<Span>, n: nat)
    requires Sorted(q) && Nonempty(q) && q != [] && n <= At(q, |q| - 1).groups
    ensures |Groups(q, n)| == n
  {
    if n > 0 {
      NumberOfGroups(q, n - 1);
      if Group(q, n) in Groups(q, n - 1) {
        var k := GroupsListed(q, n - 1, Group(q, n));
        var i := GroupInhabited(q, |q| - 1, k);
        GroupsDiffer(q, k, n, i);
      }
    }
  }

  lemma CountComponents(q: seq<Span>)
    requires Sorted(q) && Nonempty(q) && q != []
    ensures |Components(Members(q))| == At(q, |q| - 1).groups
  {
    var n, S := At(q, |q| - 1).groups, Members(q);
    forall C | C in Components(S) ensures C in Groups(q, n) {
      var a :| a in S && C == Component(S, a);
      var i :| 0 <= i < |q| && q[i] == a;
      ComponentIsGroup(q, i);
      GroupsRise(q, i, |q| - 1);
      GroupsHolds(q, n, At(q, i).groups);
    }
    forall C | C in Groups(q, n) ensures C in Components(S) {
      var k := GroupsListed(q, n, C);
      var i := GroupInhabited(q, |q| - 1, k);
      ComponentIsGroup(q, i);
      assert q[i] in S;
    }
    assert Components(S) == Groups(q, n);
    NumberOfGroups(q, n);
  }

  lemma SweepCountsComponents(hits: seq<Span>)
    requires Nonempty(hits) && hits != []
    ensures At(SortByStart(hits), |hits| - 1).groups == |Components(Members(hits))|
  {
    hide Components, Component, Overlap;
    SameMembers(SortByStart(hits), hits);
    CountComponents(SortByStart(hits));
  }

  lemma SameMembers(a: seq<Span>, b: seq<Span>)
    requires multiset(a) == multiset(b)
    ensures Members(a) == Members(b) && (Nonempty(b) ==> Nonempty(a))
  {
    forall x ensures x in a <==> x in b {
      assert x in a <==> x in multiset(a);
      assert x in b <==> x in multiset(b);
    }
    forall i | 0 <= i < |a| && Nonempty(b) ensures a[i].start < a[i].end {
      assert a[i] in b;
    }
  }

  /** Pairwise disjoint spans count one each. */
  lemma DisjointSpansCountEach(hits: seq<Span>)
    requires Nonempty(hits) && forall i, j :: 0 <= i < j < |hits| ==> !Overlap(hits[i], hits[j])
    ensures |Components(Members(hits))| == |hits|
  {
    var S := Members(hits);
    var cs := seq(|hits|, i requires 0 <= i < |hits| => {hits[i]});
    forall a | a in S ensures Component(S, a) == {a} {
      assert Path(S, [a]) && [a][0] == a && [a][|[a]| - 1] == a;
      forall b | b in Component(S, a) ensures b == a {
        var p :| Path(S, p) && p[0] == a && p[|p| - 1] == b;
        IsolatedPath(hits, p);
      }
    }
    forall i, j | 0 <= i < j < |hits| ensures cs[i] != cs[j] {
      assert hits[i] in cs[i] && hits[j] in cs[j] && Overlap(hits[i], hits[i]);
    }
    DistinctCount(cs);
    forall b | b in cs ensures b in Components(S) {
      var i :| 0 <= i < |cs| && cs[i] == b;
      assert Component(S, hits[i]) == b;
    }
    forall a | a in S ensures Component(S, a) in cs {
      var i :| 0 <= i < |hits| && hits[i] == a;
      assert cs[i] == {a};
    }
    assert Components(S) == set b | b in cs;
  }

  lemma {:induction false} IsolatedPath(hits: seq<Span>, p: seq<Span>)
    requires forall i, j :: 0 <= i < j < |hits| ==> !Overlap(hits[i], hits[j])
    requires Path(Members(hits), p)
    ensures p[|p| - 1] == p[0]
    decreases |p|
  {
    if |p| > 1 {
      var n := |p| - 1;
      IsolatedPath(hits, p[..n]);
      assert Overlap(p[n - 1], p[n]);
      var i :| 0 <= i < |hits| && hits[i] == p[n - 1];
      var j :| 0 <= j < |hits| && hits[j] == p[n];
      assert Overlap(hits[i], hits[j]) && Overlap(hits[j], hits[i]);
    }
  }
}
