/** Ingest as a step system: the poller and any number of API handlers work
    through their documents one database step at a time, interleaved with each
    other, with failing steps, with a crash between any two steps and with the
    rollup rebuild run from another process. The report table, the TLS and
    forensic tables and dmarc_agg_daily survive a crash; tasks do not.

    A document stands for what its decoder returns on it, None when the decoder
    fails: decoding is deterministic and has no other effect. */
module Ingest {
  import opened Ledger
  import opened Reports
  import opened Rollup

  datatype TlsReport = TlsReport(org: string, reportId: string, policies: seq<string>)

  datatype ForensicReport = ForensicReport(feedbackType: string, headers: string)

  datatype Doc =
    | Aggregate(rep: Option<Report>)
    | Tls(tls: Option<TlsReport>)
    | Forensic(ruf: Option<ForensicReport>)
  {
    predicate Parses() {
      match this
      case Aggregate(r) => r.Some?
      case Tls(r) => r.Some?
      case Forensic(r) => r.Some?
    }
  }

  datatype Db = Db(
    reports: seq<Row>,
    tls: seq<TlsReport>,
    forensic: seq<ForensicReport>,
    daily: map<Bucket, Counts>)

  datatype Tid = Poller | Api(n: nat)

  /** strict tasks (API calls) stop at the first document that does not parse,
      mail tasks count it and go on. emitting is the row whose observers have
      not been run to the end. */
  datatype Task = Task(docs: seq<Doc>, strict: bool, next: nat, emitting: Option<nat>, stored: nat, parseErrs: nat)

  /** What became of the one emission of a stored report. covered: a rebuild
      counted the report before (InFlight, Lost) or without (Emitted: in
      addition to) its upsert. */
  datatype Fate = InFlight(covered: bool) | Lost(covered: bool) | Emitted(covered: bool)

  /** fates and upserts are history: one entry per stored report. */
  datatype State = State(db: Db, tasks: map<Tid, Task>, fates: seq<Fate>, upserts: seq<nat>)

  datatype Effect =
    | Ok(serial: int)
    | CommitUnacked(serial: int)  // committed, but the client saw an error
    | DbError

  datatype Action =
    | Begin(tid: Tid, docs: seq<Doc>, strict: bool)
    | Work(tid: Tid, effect: Effect)
    | Finish(tid: Tid)
    | Crash
    | Backfill

  const INIT := State(Db([], [], [], map[]), map[], [], [])

  // --- one document ---

  predicate HasKey(rows: seq<Row>, k: Key) {
    exists i :: 0 <= i < |rows| && rows[i].report.key == k
  }

  predicate Fresh(rows: seq<Row>, serial: int) {
    0 < serial && forall i :: 0 <= i < |rows| ==> rows[i].serial != serial
  }

  predicate HasTls(tls: seq<TlsReport>, r: TlsReport) {
    exists i :: 0 <= i < |tls| && tls[i].org == r.org && tls[i].reportId == r.reportId
  }

  function SaveTls(tls: seq<TlsReport>, r: TlsReport): seq<TlsReport> {
    if HasTls(tls, r) then tls else tls + [r]
  }

  /** The document's content is in the database: under its key for the
      deduplicated kinds, as a row for forensic reports. */
  predicate Stored(db: Db, d: Doc) {
    match d
    case Aggregate(Some(r)) => HasKey(db.reports, r.key)
    case Tls(Some(r)) => HasTls(db.tls, r)
    case Forensic(Some(r)) => r in db.forensic
    case _ => false
  }

  // --- steps ---

  function Drop(s: State, tid: Tid): State {
    s.(tasks := s.tasks - {tid})
  }

  function Advance(s: State, tid: Tid, t: Task): State {
    s.(tasks := s.tasks[tid := t.(next := t.next + 1, stored := t.stored + 1)])
  }

  /** The observers of row i: the rollup upsert is applied or lost, and nobody
      will try again. */
  function Settle(s: State, tid: Tid, t: Task, i: nat, ok: bool): State
    requires i < |s.db.reports| && i < |s.fates| && i < |s.upserts|
  {
    var s1 := s.(tasks := s.tasks[tid := t.(emitting := None)]);
    if ok then
      s1.(db := s.db.(daily := Apply(s.db.daily, EntryOf(s.db.reports[i]))),
          fates := s.fates[i := Emitted(s.fates[i].covered)],
          upserts := s.upserts[i := s.upserts[i] + 1])
    else
      s1.(fates := s.fates[i := Lost(s.fates[i].covered)])
  }

  function Append(s: State, row: Row, fate: Fate): State {
    s.(db := s.db.(reports := s.db.reports + [row]), fates := s.fates + [fate], upserts := s.upserts + [0])
  }

  /** SaveReport and the caller's reaction to its result. */
  function SaveReport(s: State, tid: Tid, t: Task, rep: Report, e: Effect): State {
    if e.DbError? || (e.CommitUnacked? && HasKey(s.db.reports, rep.key)) then Drop(s, tid)
    else if HasKey(s.db.reports, rep.key) then Advance(s, tid, t)
    else if !Fresh(s.db.reports, e.serial) then s
    else if e.CommitUnacked? then Drop(Append(s, Row(e.serial, rep), Lost(false)), tid)
    else
      Advance(Append(s, Row(e.serial, rep), InFlight(false)), tid, t.(emitting := Some(|s.db.reports|)))
  }

  function WorkOnDoc(s: State, tid: Tid, t: Task, e: Effect): State
    requires t.next < |t.docs|
  {
    match t.docs[t.next]
    case Aggregate(Some(rep)) => SaveReport(s, tid, t, rep, e)
    case Tls(Some(r)) =>
      var saved := s.(db := s.db.(tls := SaveTls(s.db.tls, r)));
      if e.DbError? then Drop(s, tid)
      else if e.CommitUnacked? then Drop(saved, tid)
      else Advance(saved, tid, t)
    case Forensic(Some(r)) =>
      var saved := s.(db := s.db.(forensic := s.db.forensic + [r]));
      if e.DbError? then Drop(s, tid)
      else if e.CommitUnacked? then Drop(saved, tid)
      else Advance(saved, tid, t)
    case _ =>
      if t.strict then Drop(s, tid)
      else s.(tasks := s.tasks[tid := t.(next := t.next + 1, parseErrs := t.parseErrs + 1)])
  }

  predicate Done(t: Task) {
    t.emitting.None? && t.next == |t.docs|
  }

  function CrashFates(fates: seq<Fate>): seq<Fate> {
    seq(|fates|, i requires 0 <= i < |fates| => if fates[i].InFlight? then Lost(fates[i].covered) else fates[i])
  }

  function CoverFates(fates: seq<Fate>): seq<Fate> {
    seq(|fates|, i requires 0 <= i < |fates| =>
      match fates[i]
      case InFlight(_) => InFlight(true)
      case Lost(_) => Lost(true)
      case Emitted(_) => Emitted(false))
  }

  function DoWork(s: State, tid: Tid, t: Task, e: Effect): State {
    match t.emitting
    case Some(i) =>
      if i < |s.db.reports| && i < |s.fates| && i < |s.upserts| then Settle(s, tid, t, i, e.Ok?) else s
    case None => if t.next < |t.docs| then WorkOnDoc(s, tid, t, e) else s
  }

  /** One step; an action that is not enabled changes nothing. */
  function Do(s: State, a: Action): State {
    match a
    case Begin(tid, docs, strict) =>
      if tid in s.tasks then s else s.(tasks := s.tasks[tid := Task(docs, strict, 0, None, 0, 0)])
    case Work(tid, e) => if tid in s.tasks then DoWork(s, tid, s.tasks[tid], e) else s
    case Finish(tid) => if tid in s.tasks && Done(s.tasks[tid]) then Drop(s, tid) else s
    case Crash => s.(tasks := map[], fates := CrashFates(s.fates))
    case Backfill => s.(db := s.db.(daily := Rebuild(s.db.reports)), fates := CoverFates(s.fates))
  }

  function Run(s: State, acts: seq<Action>): State
    decreases |acts|
  {
    if acts == [] then s else Run(Do(s, acts[0]), acts[1..])
  }

  // --- what every state keeps ---

  /** How often a report with this fate is counted in dmarc_agg_daily. */
  function Weight(f: Fate): nat {
    match f
    case InFlight(c) => if c then 1 else 0
    case Lost(c) => if c then 1 else 0
    case Emitted(c) => if c then 2 else 1
  }

  function Weights(fates: seq<Fate>): (w: seq<nat>)
    ensures |w| == |fates|
  {
    seq(|fates|, i requires 0 <= i < |fates| => Weight(fates[i]))
  }

  predicate Parallel(s: State) {
    |s.fates| == |s.db.reports| == |s.upserts|
  }

  ghost predicate TablesInv(s: State) {
    && DistinctRows(s.db.reports)
    && (forall i, j :: 0 <= i < j < |s.db.tls| ==>
        s.db.tls[i].org != s.db.tls[j].org || s.db.tls[i].reportId != s.db.tls[j].reportId)
    && (forall i :: 0 <= i < |s.db.reports| ==> 0 < s.db.reports[i].serial)
  }

  ghost predicate LedgerInv(s: State) {
    Parallel(s) && Counted(s.db.daily, Entries(s.db.reports), Weights(s.fates))
  }

  predicate Emits(s: State, tid: Tid, i: nat) {
    tid in s.tasks && s.tasks[tid].emitting == Some(i)
  }

  predicate Flying(s: State, i: nat) {
    i < |s.fates| && s.fates[i].InFlight?
  }

  ghost predicate OneEmitter(s: State) {
    forall tid, tid', i: nat :: Emits(s, tid, i) && Emits(s, tid', i) ==> tid == tid'
  }

  /** A report is in flight exactly when some task is emitting it, and then only
      one task is. */
  ghost predicate FlightInv(s: State) {
    && Parallel(s)
    && OneEmitter(s)
    && (forall tid, i: nat :: Emits(s, tid, i) ==> Flying(s, i))
    && (forall i: nat :: Flying(s, i) ==> exists tid :: Emits(s, tid, i))
    && (forall i: nat :: i < |s.fates| ==> s.upserts[i] == if s.fates[i].Emitted? then 1 else 0)
  }

  function CountParsed(docs: seq<Doc>, n: nat): nat
    requires n <= |docs|
  {
    if n == 0 then 0 else CountParsed(docs, n - 1) + if docs[n - 1].Parses() then 1 else 0
  }

  /** Everything a task has passed is stored, and it has counted right. */
  ghost predicate TaskInv(db: Db, t: Task) {
    && t.next <= |t.docs|
    && (forall j :: 0 <= j < t.next && t.docs[j].Parses() ==> Stored(db, t.docs[j]))
    && t.stored == CountParsed(t.docs, t.next)
    && t.parseErrs == t.next - CountParsed(t.docs, t.next)
    && (t.strict ==> t.parseErrs == 0)
  }

  ghost predicate TasksInv(s: State) {
    forall tid :: tid in s.tasks ==> TaskInv(s.db, s.tasks[tid])
  }

  ghost predicate Inv(s: State) {
    TablesInv(s) && LedgerInv(s) && FlightInv(s) && TasksInv(s)
  }

  /** Rows are only ever appended, and a settled emission stays settled. */
  ghost predicate Grows(s: State, s': State) {
    && s.db.reports <= s'.db.reports
    && s.db.tls <= s'.db.tls
    && s.db.forensic <= s'.db.forensic
    && |s.fates| <= |s'.fates|
    && (forall i :: 0 <= i < |s.fates| && s.fates[i].Emitted? ==> s'.fates[i].Emitted?)
    && (forall i :: 0 <= i < |s.fates| && s.fates[i].Lost? ==> s'.fates[i].Lost?)
  }

  lemma StoredGrows(db: Db, db': Db, d: Doc)
    requires db.reports <= db'.reports && db.tls <= db'.tls && db.forensic <= db'.forensic
    ensures Stored(db, d) ==> Stored(db', d)
  {
    if Stored(db, d) {
      match d {
        case Aggregate(Some(r)) =>
          var i :| 0 <= i < |db.reports| && db.reports[i].report.key == r.key;
          assert db'.reports[i] == db.reports[i];
        case Tls(Some(r)) =>
          var i :| 0 <= i < |db.tls| && db.tls[i].org == r.org && db.tls[i].reportId == r.reportId;
          assert db'.tls[i] == db.tls[i];
        case Forensic(Some(r)) =>
          var i :| 0 <= i < |db.forensic| && db.forensic[i] == r;
          assert db'.forensic[i] == r;
      }
    }
  }

  /** The three ways a step on a document can go: nothing is inserted into
      report; a row is inserted and its emission starts; a row is inserted but
      the caller never learns of it. */
  ghost predicate DocStep(s: State, s': State, tid: Tid) {
    && s'.db.daily == s.db.daily
    && s.db.tls <= s'.db.tls
    && s.db.forensic <= s'.db.forensic
    && (forall other :: other != tid && other in s.tasks ==> other in s'.tasks && s'.tasks[other] == s.tasks[other])
    && (forall other :: other in s'.tasks ==> other in s.tasks)
    && var emits := if tid in s'.tasks then s'.tasks[tid].emitting else None;
       || (s'.db.reports == s.db.reports && s'.fates == s.fates && s'.upserts == s.upserts && emits == None)
       || (exists row :: InsertStep(s, s', row, emits))
  }

  predicate InsertStep(s: State, s': State, row: Row, emits: Option<nat>) {
    && s'.db.reports == s.db.reports + [row]
    && s'.upserts == s.upserts + [0]
    && ((s'.fates == s.fates + [InFlight(false)] && emits == Some(|s.db.reports|))
        || (s'.fates == s.fates + [Lost(false)] && emits == None))
  }

  lemma SaveSteps(s: State, tid: Tid, t: Task, rep: Report, e: Effect)
    requires tid in s.tasks && s.tasks[tid] == t && t.emitting.None?
    ensures DocStep(s, SaveReport(s, tid, t, rep, e), tid)
  {
    var s' := SaveReport(s, tid, t, rep, e);
    if s'.db.reports != s.db.reports {
      assert InsertStep(s, s', Row(e.serial, rep), if tid in s'.tasks then s'.tasks[tid].emitting else None);
    }
  }

  lemma NoInsertStep(s: State, s': State, tid: Tid)
    requires s'.db.(tls := s.db.tls, forensic := s.db.forensic) == s.db && s'.fates == s.fates
        && s'.upserts == s.upserts
    requires s.db.tls <= s'.db.tls && s.db.forensic <= s'.db.forensic
    requires tid in s.tasks
        && (s'.tasks == s.tasks - {tid}
            || (tid in s'.tasks && s'.tasks[tid].emitting.None? && s'.tasks == s.tasks[tid := s'.tasks[tid]]))
    ensures DocStep(s, s', tid)
  {
  }

  /** Saving anything but an aggregate report leaves report alone. */
  lemma OtherSteps(s: State, tid: Tid, t: Task, e: Effect)
    requires tid in s.tasks && s.tasks[tid] == t && t.emitting.None? && t.next < |t.docs|
    requires !(t.docs[t.next].Aggregate? && t.docs[t.next].rep.Some?)
    ensures DocStep(s, WorkOnDoc(s, tid, t, e), tid)
  {
    var s' := WorkOnDoc(s, tid, t, e);
    hide DocStep;
    NoInsertStep(s, s', tid);
  }

  lemma WorkOnDocSteps(s: State, tid: Tid, e: Effect)
    requires tid in s.tasks && s.tasks[tid].emitting.None?
    ensures DocStep(s, Do(s, Work(tid, e)), tid)
  {
    var t := s.tasks[tid];
    if t.next < |t.docs| {
      match t.docs[t.next] {
        case Aggregate(Some(rep)) => SaveSteps(s, tid, t, rep, e);
        case _ => OtherSteps(s, tid, t, e);
      }
    }
  }

  lemma StepGrows(s: State, a: Action)
    requires FlightInv(s)
    ensures Grows(s, Do(s, a))
  {
    if a.Work? && a.tid in s.tasks {
      var t := s.tasks[a.tid];
      if t.emitting.Some? {
        assert Emits(s, a.tid, t.emitting.value);
      } else {
        WorkOnDocSteps(s, a.tid, a.effect);
        DocStepGrows(s, Do(s, a), a.tid);
      }
    }
  }

  lemma DocStepGrows(s: State, s': State, tid: Tid)
    requires Parallel(s) && DocStep(s, s', tid)
    ensures Grows(s, s') && Parallel(s')
  {
  }

  lemma SaveReportKeepsTables(s: State, tid: Tid, t: Task, rep: Report, e: Effect)
    requires TablesInv(s)
    ensures TablesInv(SaveReport(s, tid, t, rep, e))
  {
  }

  lemma SaveTlsKeepsTables(s: State, r: TlsReport)
    requires TablesInv(s)
    ensures TablesInv(s.(db := s.db.(tls := SaveTls(s.db.tls, r))))
  {
  }

  lemma WorkKeepsTables(s: State, tid: Tid, t: Task, e: Effect)
    requires TablesInv(s) && t.next < |t.docs|
    ensures TablesInv(WorkOnDoc(s, tid, t, e))
  {
    match t.docs[t.next] {
      case Aggregate(Some(rep)) => SaveReportKeepsTables(s, tid, t, rep, e);
      case Tls(Some(r)) => SaveTlsKeepsTables(s, r);
      case _ =>
    }
  }

  lemma StepKeepsTables(s: State, a: Action)
    requires TablesInv(s)
    ensures TablesInv(Do(s, a))
  {
    if a.Work? && a.tid in s.tasks && s.tasks[a.tid].emitting.None? && s.tasks[a.tid].next < |s.tasks[a.tid].docs| {
      WorkKeepsTables(s, a.tid, s.tasks[a.tid], a.effect);
    }
  }

  lemma StepKeepsTasks(s: State, a: Action)
    requires FlightInv(s) && TasksInv(s)
    ensures TasksInv(Do(s, a))
  {
    StepGrows(s, a);
    forall tid | tid in Do(s, a).tasks ensures TaskInv(Do(s, a).db, Do(s, a).tasks[tid]) {
      StepKeepsTask(s, a, tid);
    }
  }

  lemma StepKeepsTask(s: State, a: Action, tid: Tid)
    requires FlightInv(s) && TasksInv(s) && tid in Do(s, a).tasks && Grows(s, Do(s, a))
    ensures TaskInv(Do(s, a).db, Do(s, a).tasks[tid])
  {
    if tid in s.tasks {
      TaskInvGrows(s.db, Do(s, a).db, s.tasks[tid]);
      if a.Work? && a.tid == tid {
        WorkKeepsTask(s, tid, a.effect);
      } else {
        StepSparesTask(s, a, tid);
      }
    }
  }

  lemma StepSparesTask(s: State, a: Action, tid: Tid)
    requires FlightInv(s) && tid in s.tasks && tid in Do(s, a).tasks && !(a.Work? && a.tid == tid)
    ensures Do(s, a).tasks[tid] == s.tasks[tid]
  {
    if a.Work? && a.tid in s.tasks && s.tasks[a.tid].emitting.None? {
      WorkOnDocSteps(s, a.tid, a.effect);
    }
  }

  lemma WorkKeepsTask(s: State, tid: Tid, e: Effect)
    requires FlightInv(s) && tid in s.tasks && tid in Do(s, Work(tid, e)).tasks
    requires TaskInv(Do(s, Work(tid, e)).db, s.tasks[tid])
    ensures TaskInv(Do(s, Work(tid, e)).db, Do(s, Work(tid, e)).tasks[tid])
  {
    var t := s.tasks[tid];
    if t.emitting.None? {
      WorkStores(s, tid, e);
    } else {
      assert Emits(s, tid, t.emitting.value);
    }
  }

  lemma TaskInvGrows(db: Db, db': Db, t: Task)
    requires db.reports <= db'.reports && db.tls <= db'.tls && db.forensic <= db'.forensic
    requires TaskInv(db, t)
    ensures TaskInv(db', t)
  {
    forall j | 0 <= j < t.next && t.docs[j].Parses() ensures Stored(db', t.docs[j]) {
      StoredGrows(db, db', t.docs[j]);
    }
  }

  /** A step that moves a task past a document counts it and, if it parsed, has
      stored it. */
  lemma WorkStores(s: State, tid: Tid, e: Effect)
    requires tid in s.tasks && s.tasks[tid].emitting.None?
    ensures var t, s' := s.tasks[tid], Do(s, Work(tid, e));
      tid in s'.tasks && s'.tasks[tid] != t ==>
        && t.next < |t.docs|
        && (t.docs[t.next].Parses() ==>
             Stored(s'.db, t.docs[t.next])
               && s'.tasks[tid] == t.(next := t.next + 1, stored := t.stored + 1, emitting := s'.tasks[tid].emitting))
        && (!t.docs[t.next].Parses() ==>
             !t.strict && s'.tasks[tid] == t.(next := t.next + 1, parseErrs := t.parseErrs + 1))
  {
    var t := s.tasks[tid];
    if t.next < |t.docs| {
      var s' := Do(s, Work(tid, e));
      match t.docs[t.next] {
        case Aggregate(Some(rep)) =>
          if tid in s'.tasks && s'.tasks[tid] != t {
            assert s'.tasks[tid] == t.(next := t.next + 1, stored := t.stored + 1, emitting := s'.tasks[tid].emitting);
            if !HasKey(s.db.reports, rep.key) {
              assert s'.db.reports[|s.db.reports|].report.key == rep.key;
            }
          }
        case Tls(Some(r)) =>
          assert HasTls(s.db.tls, r) || SaveTls(s.db.tls, r)[|s.db.tls|] == r;
          assert t.(next := t.next + 1, stored := t.stored + 1)
            == t.(next := t.next + 1, stored := t.stored + 1, emitting := None);
        case Forensic(Some(r)) =>
          assert (s.db.forensic + [r])[|s.db.forensic|] == r;
          assert t.(next := t.next + 1, stored := t.stored + 1)
            == t.(next := t.next + 1, stored := t.stored + 1, emitting := None);
        case _ =>
      }
    }
  }

  lemma StepKeepsFlight(s: State, a: Action)
    requires FlightInv(s)
    ensures FlightInv(Do(s, a))
  {
    var s' := Do(s, a);
    match a {
      case Begin(tid, docs, strict) =>
        assert forall tid, i: nat :: Emits(s, tid, i) <==> Emits(s', tid, i);
        assert forall i: nat :: Flying(s', i) <==> Flying(s, i);
      case Finish(tid) =>
        assert forall tid, i: nat :: Emits(s, tid, i) <==> Emits(s', tid, i);
        assert forall i: nat :: Flying(s', i) <==> Flying(s, i);
      case Crash =>
      case Backfill =>
        assert forall tid, i: nat :: Emits(s, tid, i) <==> Emits(s', tid, i);
        assert forall i: nat :: Flying(s', i) <==> Flying(s, i);
      case Work(tid, e) =>
        if tid in s.tasks { WorkKeepsFlight(s, tid, e); }
    }
  }

  lemma WorkKeepsFlight(s: State, tid: Tid, e: Effect)
    requires FlightInv(s) && tid in s.tasks
    ensures FlightInv(Do(s, Work(tid, e)))
  {
    var s' := Do(s, Work(tid, e));
    match s.tasks[tid].emitting {
      case Some(i) =>
        assert Emits(s, tid, i);
        SettleKeepsFlight(s, tid, i, e.Ok?);
      case None =>
        WorkOnDocSteps(s, tid, e);
        DocStepKeepsFlight(s, s', tid);
    }
  }

  lemma SettleEmits(s: State, tid: Tid, i: nat, ok: bool)
    requires Parallel(s) && OneEmitter(s) && Emits(s, tid, i) && i < |s.fates|
    ensures forall tid', k: nat :: Emits(Settle(s, tid, s.tasks[tid], i, ok), tid', k) <==> Emits(s, tid', k) && k != i
  {
    forall tid', k: nat ensures Emits(Settle(s, tid, s.tasks[tid], i, ok), tid', k) <==> Emits(s, tid', k) && k != i {
      assert Emits(s, tid', i) ==> tid' == tid;
    }
  }

  lemma SettleKeepsFlight(s: State, tid: Tid, i: nat, ok: bool)
    requires FlightInv(s) && Emits(s, tid, i) && i < |s.fates|
    ensures FlightInv(Settle(s, tid, s.tasks[tid], i, ok))
  {
    var s' := Settle(s, tid, s.tasks[tid], i, ok);
    SettleEmits(s, tid, i, ok);
    assert forall k: nat :: Flying(s', k) <==> Flying(s, k) && k != i;
    forall k: nat | Flying(s', k) ensures exists tid' :: Emits(s', tid', k) {
      var tid' :| Emits(s, tid', k);
      assert Emits(s', tid', k);
    }
  }

  lemma DocStepKeepsFlight(s: State, s': State, tid: Tid)
    requires FlightInv(s) && tid in s.tasks && s.tasks[tid].emitting.None? && DocStep(s, s', tid)
    ensures FlightInv(s')
  {
    var n := |s.db.reports|;
    assert forall tid', k: nat :: Emits(s, tid', k) ==> tid' != tid && Emits(s', tid', k);
    if |s'.fates| == n + 1 && s'.fates[n] == InFlight(false) {
      assert Emits(s', tid, n);
      assert forall tid', k: nat :: Emits(s', tid', k) ==> Emits(s, tid', k) || (tid' == tid && k == n);
      assert forall k: nat :: Flying(s', k) <==> Flying(s, k) || k == n;
    } else {
      assert forall tid', k: nat :: Emits(s', tid', k) ==> Emits(s, tid', k);
      assert forall k: nat :: Flying(s', k) <==> Flying(s, k);
    }
  }

  lemma EntriesAppend(rows: seq<Row>, row: Row)
    ensures Entries(rows + [row]) == Entries(rows) + [EntryOf(row)]
  {
  }

  /** The table and the weights stay in step, whatever happens. */
  lemma StepKeepsLedger(s: State, a: Action)
    requires LedgerInv(s) && FlightInv(s) && TablesInv(s)
    ensures LedgerInv(Do(s, a))
  {
    match a {
      case Begin(tid, docs, strict) =>
      case Finish(tid) =>
      case Crash => assert Weights(CrashFates(s.fates)) == Weights(s.fates);
      case Backfill =>
        RebuildCountsEachOnce(s.db.reports);
        assert Weights(CoverFates(s.fates)) == Ones(|s.db.reports|);
      case Work(tid, e) =>
        if tid in s.tasks { WorkKeepsLedger(s, tid, e); }
    }
  }

  lemma EmissionSettles(s: State, tid: Tid, i: nat, e: Effect)
    requires FlightInv(s) && tid in s.tasks && s.tasks[tid].emitting == Some(i)
    ensures i < |s.fates| && s.fates[i].InFlight? && |s.db.reports| == |s.fates| == |s.upserts|
    ensures Do(s, Work(tid, e)) == Settle(s, tid, s.tasks[tid], i, e.Ok?)
  {
    assert Emits(s, tid, i) && Flying(s, i);
    hide FlightInv, Do, Settle;
    WorkIsSettle(s, tid, i, e);
  }

  lemma WorkIsSettle(s: State, tid: Tid, i: nat, e: Effect)
    requires tid in s.tasks && s.tasks[tid].emitting == Some(i)
    requires i < |s.fates| && |s.db.reports| == |s.fates| == |s.upserts|
    ensures Do(s, Work(tid, e)) == Settle(s, tid, s.tasks[tid], i, e.Ok?)
  {
    hide Settle;
  }

  lemma WorkKeepsLedger(s: State, tid: Tid, e: Effect)
    requires LedgerInv(s) && FlightInv(s) && tid in s.tasks
    ensures LedgerInv(Do(s, Work(tid, e)))
  {
    match s.tasks[tid].emitting {
      case Some(i) =>
        EmissionSettles(s, tid, i, e);
        hide LedgerInv, FlightInv, Settle, Do;
        SettleKeepsLedger(s, tid, s.tasks[tid], i, e.Ok?);
      case None =>
        WorkOnDocSteps(s, tid, e);
        hide LedgerInv, FlightInv, DocStep, Do;
        DocStepKeepsLedger(s, Do(s, Work(tid, e)), tid);
    }
  }

  lemma WeightsUpdate(fates: seq<Fate>, i: nat, f: Fate)
    requires i < |fates|
    ensures Weights(fates[i := f]) == Weights(fates)[i := Weight(f)]
  {
  }

  lemma SettleKeepsLedger(s: State, tid: Tid, t: Task, i: nat, ok: bool)
    requires LedgerInv(s) && i < |s.fates| && s.fates[i].InFlight?
    ensures LedgerInv(Settle(s, tid, t, i, ok))
  {
    if ok {
      AppliedKeepsLedger(s, tid, t, i);
    } else {
      LostKeepsLedger(s, tid, t, i);
    }
  }

  lemma AppliedKeepsLedger(s: State, tid: Tid, t: Task, i: nat)
    requires LedgerInv(s) && i < |s.fates| && s.fates[i].InFlight?
    ensures LedgerInv(Settle(s, tid, t, i, true))
  {
    hide Counted, Apply, Entries, EntryOf, Weights;
    EntryCounted(s.db.daily, s.db.reports, s.fates, i);
  }

  lemma EntryCounted(daily: map<Bucket, Counts>, rows: seq<Row>, fates: seq<Fate>, i: nat)
    requires |fates| == |rows| && i < |fates| && fates[i].InFlight? && Counted(daily, Entries(rows), Weights(fates))
    ensures Counted(Apply(daily, EntryOf(rows[i])), Entries(rows), Weights(fates[i := Emitted(fates[i].covered)]))
  {
    var es, w, w' := Entries(rows), Weights(fates), Weights(fates[i := Emitted(fates[i].covered)]);
    WeightsRaise(fates, i);
    assert es[i] == EntryOf(rows[i]);
    hide *;
    ApplyCountsAs(daily, es, w, i, EntryOf(rows[i]), w');
  }

  lemma ApplyCountsAs(daily: map<Bucket, Counts>, es: seq<Entry>, w: seq<nat>, i: nat, e: Entry, w': seq<nat>)
    requires |w| == |es| && i < |es| && Counted(daily, es, w) && e == es[i] && w' == w[i := w[i] + 1]
    ensures Counted(Apply(daily, e), es, w')
  {
    hide *;
    ApplyCounts(daily, es, w, i);
  }

  lemma WeightsRaise(fates: seq<Fate>, i: nat)
    requires i < |fates| && fates[i].InFlight?
    ensures Weights(fates[i := Emitted(fates[i].covered)]) == Weights(fates)[i := Weights(fates)[i] + 1]
  {
    WeightsUpdate(fates, i, Emitted(fates[i].covered));
  }

  lemma LostKeepsLedger(s: State, tid: Tid, t: Task, i: nat)
    requires LedgerInv(s) && i < |s.fates| && s.fates[i].InFlight?
    ensures LedgerInv(Settle(s, tid, t, i, false))
  {
    var w, f := Weights(s.fates), Lost(s.fates[i].covered);
    assert w[i := Weight(f)] == w;
    WeightsUpdate(s.fates, i, f);
    hide Counted, Entries, Weights;
  }

  lemma DocStepKeepsLedger(s: State, s': State, tid: Tid)
    requires LedgerInv(s) && DocStep(s, s', tid)
    ensures LedgerInv(s')
  {
    if s'.db.reports != s.db.reports {
      var emits := if tid in s'.tasks then s'.tasks[tid].emitting else None;
      var row :| InsertStep(s, s', row, emits);
      EntriesAppend(s.db.reports, row);
      StoreLeavesTable(s.db.daily, Entries(s.db.reports), Weights(s.fates), EntryOf(row));
      assert Weights(s'.fates) == Weights(s.fates) + [0];
    } else {
      assert s'.fates == s.fates;
    }
  }

  lemma InitInv()
    ensures Inv(INIT)
  {
  }

  lemma StepKeepsInv(s: State, a: Action)
    requires Inv(s)
    ensures Inv(Do(s, a)) && Grows(s, Do(s, a))
  {
    StepGrows(s, a);
    StepKeepsTables(s, a);
    StepKeepsTasks(s, a);
    StepKeepsFlight(s, a);
    StepKeepsLedger(s, a);
  }

  lemma {:induction false} RunKeepsInv(s: State, acts: seq<Action>)
    requires Inv(s)
    ensures Inv(Run(s, acts)) && Grows(s, Run(s, acts))
    decreases |acts|
  {
    if acts == [] {
    } else {
      StepKeepsInv(s, acts[0]);
      RunKeepsInv(Do(s, acts[0]), acts[1..]);
    }
  }

  ghost predicate Reachable(s: State) {
    exists acts :: s == Run(INIT, acts)
  }

  lemma ReachableInv(s: State)
    requires Reachable(s)
    ensures Inv(s)
  {
    var acts :| s == Run(INIT, acts);
    InitInv();
    RunKeepsInv(INIT, acts);
  }
}
