/** The metrics store under concurrent callers: every call reads the clock first and takes
    the lock later, so readings may reach the store out of order although the clock itself
    never goes back. */
module MetricsClock {
  import opened Metrics

  type Tid = nat

  datatype Call =
    | Reporting(uid: Uid, pid: Pid, cwd: string, shell: string, incognito: bool, counters: Counters)
    | Asking(uid: Uid, all: bool)

  /** A call between its clock reading and its locked section. */
  datatype Waiting = Waiting(now: Time, call: Call)

  /** `log` lists the reports in the order in which they held the lock. */
  datatype State = State(clock: Time, store: Store, log: seq<Report>, calls: map<Tid, Waiting>)

  datatype Event = Tick(to: Time) | ReadClock(tid: Tid, call: Call) | Locked(tid: Tid)

  const START := State(0, map[], [], map[])

  predicate Enabled(s: State, e: Event) {
    match e
    case Tick(to) => s.clock <= to
    case ReadClock(t, _) => t !in s.calls
    case Locked(t) => t in s.calls
  }

  function ReportOf(w: Waiting): Report
    requires w.call.Reporting?
  {
    var c := w.call;
    Report(w.now, c.uid, c.pid, c.cwd, c.shell, c.incognito, c.counters)
  }

  function Step(s: State, e: Event): State
    requires Enabled(s, e)
  {
    match e
    case Tick(to) => s.(clock := to)
    case ReadClock(t, c) => s.(calls := s.calls[t := Waiting(s.clock, c)])
    case Locked(t) =>
      var w, done := s.calls[t], s.(calls := s.calls - {t});
      if w.call.Asking? then done
      else
        var q := ReportOf(w);
        done.(store := Reported(s.store, q.now, q.uid, q.pid, RecordOf(q)), log := s.log + [q])
  }

  ghost predicate Run(es: seq<Event>, ss: seq<State>) {
    && |ss| == |es| + 1 && ss[0] == START
    && forall i {:trigger es[i]} :: 0 <= i < |es| ==> Enabled(ss[i], es[i]) && ss[i + 1] == Step(ss[i], es[i])
  }

  lemma StoredSnoc(log: seq<Report>, q: Report)
    ensures Stored(log + [q]) == Reported(Stored(log), q.now, q.uid, q.pid, RecordOf(q))
  {
    hide Reported;
    assert (log + [q])[..|log|] == log;
  }

  /** The store is what its log of reports makes it. */
  ghost predicate Follows(s: State) { s.store == Stored(s.log) }

  lemma StepFollowsLog(s: State, e: Event)
    requires Enabled(s, e) && Follows(s)
    ensures Follows(Step(s, e))
  {
    if e.Locked? && s.calls[e.tid].call.Reporting? {
      StoredSnoc(s.log, ReportOf(s.calls[e.tid]));
    }
    hide Reported, Stored;
  }

  lemma {:induction false} StoreFollowsLog(es: seq<Event>, ss: seq<State>, n: nat)
    requires Run(es, ss) && n < |ss|
    ensures Follows(ss[n])
  {
    assert Follows(START);
    hide Step, Enabled, Follows;
    if n > 0 {
      StoreFollowsLog(es, ss, n - 1);
      StepFollowsLog(ss[n - 1], es[n - 1]);
      assert ss[n - 1 + 1] == Step(ss[n - 1], es[n - 1]);
    }
  }

  /** What a query answers when it gets the lock. */
  function Answered(s: State, t: Tid): View
    requires t in s.calls && s.calls[t].call.Asking?
  {
    var w := s.calls[t];
    FreshView(Selected(s.store, w.call.uid, w.call.all), w.now)
  }

  function AnsweredPlain(s: State, t: Tid): View
    requires t in s.calls && s.calls[t].call.Asking?
  {
    var w := s.calls[t];
    PlainView(Remembered(s.log), w.call.uid, w.call.all, w.now)
  }

  /** In every interleaving in which both stores decided alike, a query answers like the store that never sweeps
      exactly when no selected record that is fresh at its reading was swept by a report with
      a later reading. */
  lemma QueryAgreesIff(es: seq<Event>, ss: seq<State>, n: nat, t: Tid)
    requires Run(es, ss) && n < |ss| && t in ss[n].calls && ss[n].calls[t].call.Asking?
    requires SameDecisions(ss[n].log)
    ensures var log, w := ss[n].log, ss[n].calls[t];
            Answered(ss[n], t) == AnsweredPlain(ss[n], t) <==>
              forall i :: 0 <= i < |log| && (w.call.all || log[i].uid == w.call.uid) ==> !Overtaken(log, i, w.now)
  {
    StoreFollowsLog(es, ss, n);
    hide Run, Stored, Remembered, SameDecisions, Overtaken;
    var w := ss[n].calls[t];
    AnswersAgreeIff(ss[n].log, w.call.uid, w.call.all, w.now);
  }

  lemma Extend(es: seq<Event>, ss: seq<State>, e: Event, s: State) returns (es': seq<Event>, ss': seq<State>)
    requires Run(es, ss) && |ss| == |es| + 1 && Enabled(ss[|es|], e) && s == Step(ss[|es|], e)
    ensures Run(es', ss') && es' == es + [e] && ss' == ss + [s]
  {
    es', ss' := es + [e], ss + [s];
  }

  /** One report at time 0, then a query that reads the clock just before it goes stale. */
  lemma QueryReadsClock(first: Call) returns (es: seq<Event>, ss: seq<State>)
    requires first.Reporting?
    ensures Run(es, ss) && |es| == 4 && |ss| == 5
    ensures var q1 := ReportOf(Waiting(0, first));
            ss[4] == State(STALE_MS - 1, Stored([q1]), [q1], map[3 := Waiting(STALE_MS - 1, Asking(first.uid, false))])
  {
    var q1 := ReportOf(Waiting(0, first));
    var g1 := Stored([q1]);
    StoredSnoc([], q1);
    assert [] + [q1] == [q1];
    hide Reported, RecordOf;
    es, ss := Extend([], [START], ReadClock(1, first), State(0, map[], [], map[1 := Waiting(0, first)]));
    hide Run, Stored;
    es, ss := Extend(es, ss, Locked(1), State(0, g1, [q1], map[]));
    es, ss := Extend(es, ss, Tick(STALE_MS - 1), State(STALE_MS - 1, g1, [q1], map[]));
    es, ss := Extend(es, ss, ReadClock(3, Asking(first.uid, false)),
                     State(STALE_MS - 1, g1, [q1], map[3 := Waiting(STALE_MS - 1, Asking(first.uid, false))]));
  }

  /** ... a millisecond later a report of another user reads the clock ... */
  lemma ReportReadsClock(first: Call, second: Call) returns (es: seq<Event>, ss: seq<State>)
    requires first.Reporting? && second.Reporting?
    ensures Run(es, ss) && |es| == 6 && |ss| == 7
    ensures var q1 := ReportOf(Waiting(0, first));
            var ask, late := Waiting(STALE_MS - 1, Asking(first.uid, false)), Waiting(STALE_MS, second);
            ss[6] == State(STALE_MS, Stored([q1]), [q1], map[3 := ask][2 := late])
  {
    var q1 := ReportOf(Waiting(0, first));
    var ask := Waiting(STALE_MS - 1, Asking(first.uid, false));
    var g1, waiting := Stored([q1]), map[3 := ask];
    hide Run, Stored;
    es, ss := QueryReadsClock(first);
    es, ss := Extend(es, ss, Tick(STALE_MS), State(STALE_MS, g1, [q1], waiting));
    es, ss := Extend(es, ss, ReadClock(2, second), State(STALE_MS, g1, [q1], waiting[2 := Waiting(STALE_MS, second)]));
  }

  /** ... and sweeps the first record. */
  lemma ReportSweeps(first: Call, second: Call) returns (es: seq<Event>, ss: seq<State>)
    requires first.Reporting? && second.Reporting?
    ensures Run(es, ss) && |es| == 7 && |ss| == 8
    ensures var q1, q2 := ReportOf(Waiting(0, first)), ReportOf(Waiting(STALE_MS, second));
            ss[7] == State(STALE_MS, Stored([q1, q2]), [q1, q2],
                           map[3 := Waiting(STALE_MS - 1, Asking(first.uid, false))])
  {
    var q1, q2 := ReportOf(Waiting(0, first)), ReportOf(Waiting(STALE_MS, second));
    var ask, late := Waiting(STALE_MS - 1, Asking(first.uid, false)), Waiting(STALE_MS, second);
    StoredSnoc([q1], q2);
    assert [q1] + [q2] == [q1, q2];
    assert map[3 := ask][2 := late] - {2} == map[3 := ask];
    hide Run, Reported, Stored, RecordOf;
    es, ss := ReportReadsClock(first, second);
    es, ss := Extend(es, ss, Locked(2), State(STALE_MS, Stored([q1, q2]), [q1, q2], map[3 := ask]));
  }

  /** A query that reads the clock one millisecond before a sweeping report and gets the lock
      after it misses a record that is fresh at its reading. */
  lemma OneMillisecondRun(first: Call, second: Call) returns (es: seq<Event>, ss: seq<State>)
    requires first.Reporting? && second.Reporting? && first.uid != second.uid
    ensures Run(es, ss) && |es| == 7 && |ss| == 8
    ensures var s := ss[7];
            && s.clock == STALE_MS
            && 3 in s.calls && s.calls[3] == Waiting(STALE_MS - 1, Asking(first.uid, false))
            && Answered(s, 3) != AnsweredPlain(s, 3)
  {
    var q1, q2 := ReportOf(Waiting(0, first)), ReportOf(Waiting(STALE_MS, second));
    SweptTooEarly(q1, q2, STALE_MS - 1);
    hide Run, Stored, Remembered, FreshView, PlainView, Selected;
    es, ss := ReportSweeps(first, second);
  }
}
