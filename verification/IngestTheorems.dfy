/** What holds over whole runs of the ingest system: conservation of message
    counts, when the rollup table is exact, at-most-once emission and first writer
    wins. */
module IngestTheorems {
  import opened Ledger
  import opened Reports
  import opened Rollup
  import opened Ingest

  // --- conservation ---

  function Flags(fates: seq<Fate>, f: Fate): seq<nat> {
    seq(|fates|, i requires 0 <= i < |fates| => if fates[i] == f then 1 else 0)
  }

  /** Message counts of the reports with a given fate, for one bucket. */
  function Of(s: State, f: Fate, b: Bucket): Counts
    requires Parallel(s)
  {
    Weighted(Entries(s.db.reports), Flags(s.fates, f), b)
  }

  /** In every reachable state, for every bucket and every column: the rebuild,
      plus what a live rebuild made count twice, is the table plus what is still
      in flight plus what was lost to a failed upsert, an unacknowledged commit
      or a crash. */
  lemma Conservation(s: State, b: Bucket)
    requires Reachable(s)
    ensures
      && Parallel(s)
      && Plus(At(Rebuild(s.db.reports), b), Of(s, Emitted(true), b))
      == Plus(At(s.db.daily, b), Plus(Of(s, InFlight(false), b), Of(s, Lost(false), b)))
  {
    ReachableInv(s);
    var es, w := Entries(s.db.reports), Weights(s.fates);
    RebuildCountsEachOnce(s.db.reports);
    Balance(es, w, b);
    assert Extra(w) == Flags(s.fates, Emitted(true));
    var flying, lost := Flags(s.fates, InFlight(false)), Flags(s.fates, Lost(false));
    assert forall k :: 0 <= k < |es| ==> Missing(w)[k] == flying[k] + lost[k];
    SumAdds(es, Missing(w), flying, lost, |es|, b);
  }

  // --- exactness ---

  ghost predicate Absent(fates: seq<Fate>, f: Fate) {
    forall i :: 0 <= i < |fates| ==> fates[i] != f
  }

  predicate Quiet(s: State) {
    forall tid :: tid in s.tasks ==> s.tasks[tid].emitting.None?
  }

  lemma QuietMeansSettled(s: State)
    requires FlightInv(s) && Quiet(s)
    ensures Absent(s.fates, InFlight(false)) && Absent(s.fates, InFlight(true))
  {
    forall i: nat | i < |s.fates| ensures !s.fates[i].InFlight? {
      assert forall tid :: !Emits(s, tid, i);
      assert !Flying(s, i);
    }
  }

  lemma ExactIff(s: State)
    requires Inv(s)
    requires Absent(s.fates, Emitted(true)) || (Absent(s.fates, InFlight(false)) && Absent(s.fates, Lost(false)))
    ensures s.db.daily == Rebuild(s.db.reports)
       <==> Absent(s.fates, Emitted(true)) && Absent(s.fates, InFlight(false)) && Absent(s.fates, Lost(false))
  {
    var w := Weights(s.fates);
    ExactIffEachOnce(s.db.daily, s.db.reports, w);
    if w == Ones(|s.fates|) {
      assert forall i :: 0 <= i < |s.fates| ==> Weight(s.fates[i]) == w[i] == 1;
    } else {
      var i :| 0 <= i < |w| && w[i] != 1;
    }
  }

  ghost predicate Uncovered(fates: seq<Fate>) {
    forall i :: 0 <= i < |fates| ==> !fates[i].covered
  }

  lemma StepKeepsUncovered(s: State, a: Action)
    requires FlightInv(s) && Uncovered(s.fates) && !a.Backfill?
    ensures Uncovered(Do(s, a).fates)
  {
    if a.Work? && a.tid in s.tasks {
      if s.tasks[a.tid].emitting.None? {
        WorkOnDocSteps(s, a.tid, a.effect);
        hide Do, FlightInv;
        assert DocStep(s, Do(s, a), a.tid);
      } else {
        SettleKeepsUncovered(s, a.tid, a.effect);
      }
    }
  }

  lemma SettleKeepsUncovered(s: State, tid: Tid, e: Effect)
    requires Uncovered(s.fates) && tid in s.tasks && s.tasks[tid].emitting.Some?
    ensures Uncovered(Do(s, Work(tid, e)).fates)
  {
    hide Apply, EntryOf;
  }

  lemma {:induction false} RunKeepsUncovered(s: State, acts: seq<Action>)
    requires Inv(s) && Uncovered(s.fates) && Backfill !in acts
    ensures Uncovered(Run(s, acts).fates)
    decreases |acts|
  {
    if acts == [] {
    } else {
      StepKeepsUncovered(s, acts[0]);
      StepKeepsInv(s, acts[0]);
      RunKeepsUncovered(Do(s, acts[0]), acts[1..]);
    }
  }

  /** Without a rebuild, the incremental table is the rebuilt one exactly when
      every stored report's upsert has been applied. */
  lemma IncrementalExactIffAllEmitted(acts: seq<Action>)
    requires Backfill !in acts
    ensures var s := Run(INIT, acts);
      s.db.daily == Rebuild(s.db.reports) <==> forall i :: 0 <= i < |s.fates| ==> s.fates[i].Emitted?
  {
    InitInv();
    RunKeepsInv(INIT, acts);
    RunKeepsUncovered(INIT, acts);
    ExactIff(Run(INIT, acts));
  }

  /** No crash, no rebuild, no failing step. */
  predicate Smooth(a: Action) {
    match a
    case Crash => false
    case Backfill => false
    case Work(_, e) => e.Ok?
    case _ => true
  }

  /** Since `before`: only emissions that were in flight have moved, and every
      newer report is in flight or counted once. */
  ghost predicate SmoothSince(before: seq<Fate>, now: seq<Fate>) {
    && |before| <= |now|
    && (forall i :: 0 <= i < |before| ==>
        now[i] == before[i] || (before[i].InFlight? && now[i] == Emitted(before[i].covered)))
    && (forall i :: |before| <= i < |now| ==> now[i] == InFlight(false) || now[i] == Emitted(false))
  }

  lemma SmoothStep(before: seq<Fate>, s: State, a: Action)
    requires FlightInv(s) && SmoothSince(before, s.fates) && Smooth(a)
    ensures SmoothSince(before, Do(s, a).fates)
  {
    if a.Work? && a.tid in s.tasks {
      if s.tasks[a.tid].emitting.Some? {
        SmoothSettle(before, s, a.tid, a.effect);
      } else {
        SmoothWork(s, a.tid, a.effect);
      }
    }
  }

  lemma SmoothSettle(before: seq<Fate>, s: State, tid: Tid, e: Effect)
    requires FlightInv(s) && SmoothSince(before, s.fates) && e.Ok? && tid in s.tasks && s.tasks[tid].emitting.Some?
    ensures SmoothSince(before, Do(s, Work(tid, e)).fates)
  {
    var i := s.tasks[tid].emitting.value;
    assert Emits(s, tid, i) && Flying(s, i);
    SmoothUpdate(before, s.fates, i);
  }

  lemma SmoothUpdate(before: seq<Fate>, now: seq<Fate>, i: nat)
    requires SmoothSince(before, now) && i < |now| && now[i].InFlight?
    ensures SmoothSince(before, now[i := Emitted(now[i].covered)])
  {
  }

  lemma SmoothWork(s: State, tid: Tid, e: Effect)
    requires FlightInv(s) && e.Ok? && tid in s.tasks && s.tasks[tid].emitting.None?
    ensures var s' := Do(s, Work(tid, e)); s'.fates == s.fates || s'.fates == s.fates + [InFlight(false)]
  {
    var t := s.tasks[tid];
    if t.next < |t.docs| {
      match t.docs[t.next] {
        case Aggregate(Some(rep)) =>
        case Tls(Some(r)) =>
        case Forensic(Some(r)) =>
        case _ =>
      }
    }
  }

  lemma {:induction false} SmoothRun(before: seq<Fate>, s: State, acts: seq<Action>)
    requires Inv(s) && SmoothSince(before, s.fates) && forall k :: 0 <= k < |acts| ==> Smooth(acts[k])
    ensures SmoothSince(before, Run(s, acts).fates)
    decreases |acts|
  {
    if acts == [] {
    } else {
      SmoothStep(before, s, acts[0]);
      StepKeepsInv(s, acts[0]);
      SmoothRun(before, Do(s, acts[0]), acts[1..]);
    }
  }

  /** After a rebuild and a smooth run to rest, a report is counted twice
      exactly if it was in flight at the rebuild. */
  lemma DoubledIffWasFlying(before: seq<Fate>, now: seq<Fate>)
    requires SmoothSince(CoverFates(before), now)
    requires Absent(now, InFlight(false)) && Absent(now, InFlight(true))
    ensures Absent(now, Lost(false))
    ensures Absent(now, Emitted(true)) <==> forall i :: 0 <= i < |before| ==> !before[i].InFlight?
  {
    forall i | 0 <= i < |before| ensures now[i] == Emitted(true) <==> before[i].InFlight? {
      assert CoverFates(before)[i] != InFlight(false);
    }
  }

  lemma QuietIffNothingFlying(s: State)
    requires FlightInv(s)
    ensures Quiet(s) <==> forall i :: 0 <= i < |s.fates| ==> !s.fates[i].InFlight?
  {
    if Quiet(s) {
      QuietMeansSettled(s);
    } else {
      var tid :| tid in s.tasks && s.tasks[tid].emitting.Some?;
      var i := s.tasks[tid].emitting.value;
      assert Emits(s, tid, i) && Flying(s, i);
    }
  }

  /** A rebuild of a running system, once everything has settled without a
      further failure, has left the table exact if and only if no emission was
      in flight when it ran. */
  lemma BackfillExactIffQuiet(s0: State, s1: State, after: seq<Action>)
    requires Reachable(s0) && s1 == Do(s0, Backfill)
    requires forall k :: 0 <= k < |after| ==> Smooth(after[k])
    requires Quiet(Run(s1, after))
    ensures Run(s1, after).db.daily == Rebuild(Run(s1, after).db.reports) <==> Quiet(s0)
  {
    hide Run;
    ReachableInv(s0);
    StepKeepsInv(s0, Backfill);
    assert s1.fates == CoverFates(s0.fates);
    SmoothRun(s1.fates, s1, after);
    RunKeepsInv(s1, after);
    SettledAfterBackfill(s0, Run(s1, after));
  }

  lemma SettledAfterBackfill(s0: State, s2: State)
    requires Inv(s0) && Inv(s2) && Quiet(s2) && SmoothSince(CoverFates(s0.fates), s2.fates)
    ensures s2.db.daily == Rebuild(s2.db.reports) <==> Quiet(s0)
  {
    QuietMeansSettled(s2);
    DoubledIffWasFlying(s0.fates, s2.fates);
    ExactIff(s2);
    QuietIffNothingFlying(s0);
  }

  /** One report saved by an API call that has yet to run its observers. */
  function JustSaved(rep: Report): State {
    State(Db([Row(1, rep)], [], [], map[]),
          map[Api(0) := Task([Aggregate(Some(rep))], true, 1, Some(0), 1, 0)],
          [InFlight(false)], [0])
  }

  lemma JustSavedIsReachable(rep: Report)
    ensures Reachable(JustSaved(rep))
  {
    var begin, work := Begin(Api(0), [Aggregate(Some(rep))], true), Work(Api(0), Ok(1));
    var s := Do(INIT, begin);
    var t := Task([Aggregate(Some(rep))], true, 0, None, 0, 0);
    assert s.tasks[Api(0)] == t;
    assert Do(s, work) == SaveReport(s, Api(0), t, rep, Ok(1));
    assert Do(s, work) == JustSaved(rep);
    TwoSteps(begin, work);
  }

  lemma LastUpsert(s: State, tid: Tid)
    requires |s.db.reports| == |s.upserts| == 1 && s.fates == [InFlight(true)]
    requires s.tasks.Keys == {tid} && s.tasks[tid].emitting == Some(0)
    ensures var t := Do(s, Work(tid, Ok(1))); Quiet(t) && t.fates == [Emitted(true)]
  {
    hide Apply, EntryOf;
    assert Do(s, Work(tid, Ok(1))) == Settle(s, tid, s.tasks[tid], 0, true);
  }

  lemma Rebuilt(s: State)
    ensures var t := Do(s, Backfill);
      && t.tasks == s.tasks && t.db.reports == s.db.reports && t.upserts == s.upserts
      && t.fates == CoverFates(s.fates)
  {
  }

  /** That happens: save a report, rebuild before its observers run, then let its
      upsert through, and the report is counted twice for good. */
  lemma LiveBackfillCountsTwice(rep: Report)
    ensures var s2 := Do(Do(JustSaved(rep), Backfill), Work(Api(0), Ok(1)));
      Reachable(JustSaved(rep)) && Quiet(s2) && s2.fates == [Emitted(true)] && s2.db.daily != Rebuild(s2.db.reports)
  {
    var s0 := JustSaved(rep);
    JustSavedIsReachable(rep);
    hide Do, Run, Rebuild;
    Rebuilt(s0);
    assert s0.tasks[Api(0)].emitting == Some(0);
    assert Do(s0, Backfill).fates == [InFlight(true)];
    LastUpsert(Do(s0, Backfill), Api(0));
    InexactAfter(s0, Do(s0, Backfill), Work(Api(0), Ok(1)));
  }

  lemma InexactAfter(s0: State, s1: State, a: Action)
    requires Reachable(s0) && !Quiet(s0) && s1 == Do(s0, Backfill) && Smooth(a) && Quiet(Do(s1, a))
    ensures Do(s1, a).db.daily != Rebuild(Do(s1, a).db.reports)
  {
    hide Do, Run, Rebuild;
    OneStep(s1, a);
    BackfillExactIffQuiet(s0, s1, [a]);
  }

  lemma OneStep(s: State, a: Action)
    ensures Run(s, [a]) == Do(s, a)
  {
  }

  lemma {:induction false} RunSnoc(s: State, acts: seq<Action>, a: Action)
    ensures Run(s, acts + [a]) == Do(Run(s, acts), a)
    decreases |acts|
  {
    if acts == [] {
      assert acts + [a] == [a];
      OneStep(s, a);
    } else {
      assert (acts + [a])[1..] == acts[1..] + [a];
      RunSnoc(Do(s, acts[0]), acts[1..], a);
    }
  }

  lemma ReachableStep(s: State, a: Action)
    requires Reachable(s)
    ensures Reachable(Do(s, a))
  {
    var acts :| s == Run(INIT, acts);
    RunSnoc(INIT, acts, a);
  }

  lemma TwoSteps(a: Action, b: Action)
    ensures Reachable(Do(Do(INIT, a), b))
  {
    var acts := [a, b];
    assert acts[1..] == [b];
    OneStep(Do(INIT, a), b);
    assert Run(INIT, acts) == Do(Do(INIT, a), b);
  }

  // --- exactly once ---

  /** No report is added to the rollup by more than one upsert, in any run; an
      emission that was lost is never made up for. */
  lemma AtMostOneUpsert(s: State, more: seq<Action>, i: nat)
    requires Reachable(s) && i < |s.fates|
    ensures var s' := Run(s, more);
      && i < |s.upserts| && i < |s'.upserts| && s'.upserts[i] <= 1
      && (s.fates[i].Lost? ==> s'.upserts[i] == 0)
      && (s.upserts[i] == 1 ==> s'.upserts[i] == 1)
  {
    hide Run;
    ReachableInv(s);
    RunKeepsInv(s, more);
  }

  function Lookup(rows: seq<Row>, k: Key): Option<Row> {
    if rows == [] then None
    else if rows[|rows| - 1].report.key == k then Some(rows[|rows| - 1])
    else Lookup(rows[..|rows| - 1], k)
  }

  lemma {:induction false} LookupIs(rows: seq<Row>, i: nat)
    requires DistinctRows(rows) && i < |rows|
    ensures Lookup(rows, rows[i].report.key) == Some(rows[i])
  {
    if i == |rows| - 1 {
    } else {
      LookupIs(rows[..|rows| - 1], i);
    }
  }

  /** One row per (domain, reportid), holding the first document saved under
      that key, for ever: whatever is ingested later, the row with its serial
      and all its records is found unchanged. */
  lemma FirstWriterWins(s: State, more: seq<Action>, i: nat)
    requires Reachable(s) && i < |s.db.reports|
    ensures var row, rows := s.db.reports[i], Run(s, more).db.reports;
      && Lookup(rows, row.report.key) == Some(row)
      && forall j :: 0 <= j < |rows| && rows[j].report.key == row.report.key ==> j == i
  {
    hide Run;
    ReachableInv(s);
    RunKeepsInv(s, more);
    var rows := Run(s, more).db.reports;
    assert rows[i] == s.db.reports[i];
    LookupIs(rows, i);
  }

  // --- one clean pass ---

  predicate Holds(table: seq<Report>, k: Key) {
    exists i :: 0 <= i < |table| && table[i].key == k
  }

  /** One clean pass over the first n documents. */
  function SaveAll(table: seq<Report>, docs: seq<Doc>, n: nat): seq<Report>
    requires n <= |docs|
  {
    if n == 0 then table
    else
      var t := SaveAll(table, docs, n - 1);
      match docs[n - 1]
      case Aggregate(Some(rep)) => if Holds(t, rep.key) then t else t + [rep]
      case _ => t
  }

  /** And what it leaves of the TLS reports. */
  function SaveAllTls(tls: seq<TlsReport>, docs: seq<Doc>, n: nat): seq<TlsReport>
    requires n <= |docs|
  {
    if n == 0 then tls
    else
      var t := SaveAllTls(tls, docs, n - 1);
      match docs[n - 1]
      case Tls(Some(r)) => SaveTls(t, r)
      case _ => t
  }

  function Table(rows: seq<Row>): seq<Report> {
    seq(|rows|, i requires 0 <= i < |rows| => rows[i].report)
  }

  lemma {:induction false} SaveAllHolds(table: seq<Report>, docs: seq<Doc>, n: nat, j: nat)
    requires j < n <= |docs| && docs[j].Aggregate? && docs[j].rep.Some?
    ensures Holds(SaveAll(table, docs, n), docs[j].rep.value.key)
  {
    var k := docs[j].rep.value.key;
    var t := SaveAll(table, docs, n - 1);
    if j < n - 1 {
      SaveAllHolds(table, docs, n - 1, j);
      var i :| 0 <= i < |t| && t[i].key == k;
      assert SaveAll(table, docs, n)[i] == t[i];
    } else if !Holds(t, k) {
      assert SaveAll(table, docs, n)[|t|].key == k;
    }
  }

  lemma TableHolds(rows: seq<Row>, k: Key)
    ensures Holds(Table(rows), k) <==> HasKey(rows, k)
  {
    if Holds(Table(rows), k) {
      var i :| 0 <= i < |rows| && Table(rows)[i].key == k;
      assert rows[i].report.key == k;
    }
    if HasKey(rows, k) {
      var i :| 0 <= i < |rows| && rows[i].report.key == k;
      assert Table(rows)[i].key == k;
    }
  }

  /** Whatever the others do meanwhile: when a writer has come to its end, every
      document of its body that parses is stored: a report in the one row of its domain
      and report id, a TLS report in a row of its organisation and id, a failure
      report as it is. */
  lemma DoneMeansStored(s: State, tid: Tid, j: nat)
    requires Reachable(s) && tid in s.tasks && Done(s.tasks[tid]) && j < |s.tasks[tid].docs|
    ensures match s.tasks[tid].docs[j]
      case Aggregate(Some(r)) =>
        exists i :: 0 <= i < |s.db.reports| && OnlyRow(s.db.reports, i, r.key.domain, r.key.reportId)
      case Tls(Some(r)) =>
        exists i :: 0 <= i < |s.db.tls| && s.db.tls[i].org == r.org && s.db.tls[i].reportId == r.reportId
      case Forensic(Some(r)) => exists i :: 0 <= i < |s.db.forensic| && s.db.forensic[i] == r
      case _ => true
  {
    ReachableInv(s);
    assert TaskInv(s.db, s.tasks[tid]);
    var d := s.tasks[tid].docs[j];
    if d.Aggregate? && d.Parses() {
      var i :| 0 <= i < |s.db.reports| && s.db.reports[i].report.key == d.rep.value.key;
      assert OnlyRow(s.db.reports, i, d.rep.value.key.domain, d.rep.value.key.reportId);
    }
  }

  ghost predicate OnlyRow(rows: seq<Row>, i: nat, domain: string, id: string) {
    forall j :: 0 <= j < |rows| ==>
      (rows[j].report.key.domain == domain && rows[j].report.key.reportId == id <==> j == i)
  }

  // --- bounds the health score needs ---

  /** If no stored report carries a negative count, every bucket of every
      reachable table has 0 <= aligned <= total and aligned <= dkim + spf <=
      2 * aligned, whatever was lost or counted twice. */
  lemma BucketsSound(s: State, b: Bucket)
    requires Reachable(s)
    requires forall i :: 0 <= i < |s.db.reports| ==> NonNegative(s.db.reports[i].report)
    ensures Sound(At(s.db.daily, b))
  {
    ReachableInv(s);
    var es := Entries(s.db.reports);
    forall i | 0 <= i < |es| ensures Sound(es[i].counts) {
      SelectSound(s.db.reports[i].report.records, 1);
    }
    SumSound(es, Weights(s.fates), |es|, b);
  }
}
