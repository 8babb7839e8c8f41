/** What writers get done: a writer none of whose calls fails comes to its end with
    everything stored and emitted, whatever is in the tables is what somebody sent,
    and what an interruption takes from the observers is never made up for. */
module Progress {
  import opened Reports
  import opened Ingest
  import opened IngestTheorems

  // --- a writer left alone ---

  predicate OwnStep(a: Action, tid: Tid) { a.Work? && a.tid == tid && a.effect.Ok? }

  predicate OwnSteps(acts: seq<Action>, tid: Tid) { forall k :: 0 <= k < |acts| ==> OwnStep(acts[k], tid) }

  /** Every document the task has yet to read parses, if that matters to it. */
  predicate Readable(t: Task) {
    t.strict ==> forall j :: t.next <= j < |t.docs| ==> t.docs[j].Parses()
  }

  function Ahead(t: Task): int { 2 * (|t.docs| - t.next) + if t.emitting.Some? then 1 else 0 }

  lemma {:induction false} FreshSerial(rows: seq<Row>) returns (serial: int)
    ensures Fresh(rows, serial) && forall i :: 0 <= i < |rows| ==> rows[i].serial < serial
  {
    if rows == [] {
      serial := 1;
    } else {
      var n := |rows| - 1;
      serial := FreshSerial(rows[..n]);
      if serial <= rows[n].serial { serial := rows[n].serial + 1; }
      assert forall i :: 0 <= i < n ==> rows[i] == rows[..n][i];
    }
  }

  /** A step that does not fail takes the task on. */
  lemma OkStep(s: State, tid: Tid, serial: int)
    requires Inv(s) && tid in s.tasks && !Done(s.tasks[tid]) && Readable(s.tasks[tid]) && Fresh(s.db.reports, serial)
    ensures var t, s' := s.tasks[tid], Do(s, Work(tid, Ok(serial)));
      && tid in s'.tasks && s'.tasks[tid].docs == t.docs && s'.tasks[tid].strict == t.strict
      && t.next <= s'.tasks[tid].next && Readable(s'.tasks[tid]) && 0 <= Ahead(s'.tasks[tid]) < Ahead(t)
  {
    var t := s.tasks[tid];
    assert TaskInv(s.db, t);
    if t.emitting.Some? {
      EmissionSettles(s, tid, t.emitting.value, Ok(serial));
      hide Do, Inv;
    } else {
      hide Inv;
      OkDoc(s, tid, serial);
      hide Do;
    }
  }

  lemma OkDoc(s: State, tid: Tid, serial: int)
    requires tid in s.tasks && Fresh(s.db.reports, serial)
    requires var t := s.tasks[tid];
      t.emitting.None? && t.next < |t.docs| && (t.strict ==> t.docs[t.next].Parses())
    ensures var t, s' := s.tasks[tid], Do(s, Work(tid, Ok(serial)));
      && tid in s'.tasks && s'.tasks[tid].docs == t.docs && s'.tasks[tid].strict == t.strict
      && s'.tasks[tid].next == t.next + 1
  {
    hide Fresh, HasKey;
  }

  /** Whatever the others were doing, a writer whose calls succeed gets through. */
  lemma {:induction false} CanFinish(s: State, tid: Tid) returns (acts: seq<Action>)
    requires Inv(s) && tid in s.tasks && Readable(s.tasks[tid])
    ensures OwnSteps(acts, tid)
    ensures var t := Run(s, acts).tasks; tid in t && Done(t[tid]) && t[tid].docs == s.tasks[tid].docs
    decreases Ahead(s.tasks[tid])
  {
    assert TaskInv(s.db, s.tasks[tid]);
    if Done(s.tasks[tid]) {
      acts := [];
    } else {
      var serial := FreshSerial(s.db.reports);
      var a := Work(tid, Ok(serial));
      OkStep(s, tid, serial);
      StepKeepsInv(s, a);
      hide Inv, Do, Done, Readable;
      var more := CanFinish(Do(s, a), tid);
      acts := [a] + more;
      assert acts[1..] == more;
    }
  }

  lemma OtherRests(s: State, a: Action, tid: Tid, other: Tid)
    requires OwnStep(a, tid) && other != tid
    ensures other in Do(s, a).tasks <==> other in s.tasks
    ensures other in s.tasks ==> Do(s, a).tasks[other] == s.tasks[other]
  {
    if tid in s.tasks && s.tasks[tid].emitting.None? {
      WorkOnDocSteps(s, tid, a.effect);
      hide Do;
    }
  }

  lemma {:induction false} OthersRest(s: State, acts: seq<Action>, tid: Tid, other: Tid)
    requires OwnSteps(acts, tid) && other != tid
    ensures other in Run(s, acts).tasks <==> other in s.tasks
    ensures other in s.tasks ==> Run(s, acts).tasks[other] == s.tasks[other]
    decreases |acts|
  {
    if acts == [] {
    } else {
      assert OwnStep(acts[0], tid);
      OtherRests(s, acts[0], tid, other);
      hide Do, OwnStep;
      OthersRest(Do(s, acts[0]), acts[1..], tid, other);
    }
  }

  /** … and then every document of it that parses is stored, and every report it
      added has been counted by exactly one upsert. */
  lemma FinishedWriterCounted(s: State, acts: seq<Action>, tid: Tid)
    requires Reachable(s) && OwnSteps(acts, tid)
    requires var t := Run(s, acts).tasks; tid in t && Done(t[tid])
    ensures var s' := Run(s, acts);
      && |s.fates| <= |s'.fates| == |s'.upserts| == |s'.db.reports|
      && forall i :: |s.fates| <= i < |s'.fates| ==> s'.fates[i] == Emitted(false) && s'.upserts[i] == 1
  {
    ReachableInv(s);
    RunKeepsInv(s, acts);
    SmoothRun(s.fates, s, acts);
    var s' := Run(s, acts);
    forall i: nat | |s.fates| <= i < |s'.fates| ensures !s'.fates[i].InFlight? {
      if Flying(s', i) {
        var other :| Emits(s', other, i);
        OthersRest(s, acts, tid, other);
        assert Emits(s, other, i);
      }
    }
  }

  // --- where rows come from ---

  ghost predicate Sent(acts: seq<Action>, d: Doc) {
    exists k :: 0 <= k < |acts| && acts[k].Begin? && d in acts[k].docs
  }

  /** Every row is, whole and unchanged, a document that was sent, and every task is
      at work on documents that were. */
  ghost predicate AllSent(s: State, acts: seq<Action>) {
    && (forall i :: 0 <= i < |s.db.reports| ==> Sent(acts, Aggregate(Some(s.db.reports[i].report))))
    && (forall i :: 0 <= i < |s.db.tls| ==> Sent(acts, Tls(Some(s.db.tls[i]))))
    && (forall i :: 0 <= i < |s.db.forensic| ==> Sent(acts, Forensic(Some(s.db.forensic[i]))))
    && (forall tid, j :: tid in s.tasks && 0 <= j < |s.tasks[tid].docs| ==> Sent(acts, s.tasks[tid].docs[j]))
  }

  lemma SentStays(acts: seq<Action>, a: Action, d: Doc)
    ensures Sent(acts, d) ==> Sent(acts + [a], d)
    ensures a.Begin? && d in a.docs ==> Sent(acts + [a], d)
  {
    var more := acts + [a];
    if Sent(acts, d) {
      var k :| 0 <= k < |acts| && acts[k].Begin? && d in acts[k].docs;
      assert more[k] == acts[k];
    }
    assert more[|acts|] == a;
  }

  lemma AllSentStays(s: State, acts: seq<Action>, a: Action)
    requires AllSent(s, acts)
    ensures AllSent(s, acts + [a])
  {
    forall d | Sent(acts, d) ensures Sent(acts + [a], d) { SentStays(acts, a, d); }
    hide Sent;
  }

  /** What a step can add to a table, and to whom it can give documents. */
  lemma StepAdds(s: State, a: Action)
    ensures var t := Do(s, a);
      && (t.db.reports == s.db.reports
          || (a.Work? && a.tid in s.tasks && exists row ::
                t.db.reports == s.db.reports + [row] && Aggregate(Some(row.report)) in s.tasks[a.tid].docs))
      && (t.db.tls == s.db.tls
          || (a.Work? && a.tid in s.tasks && exists r ::
                t.db.tls == s.db.tls + [r] && Tls(Some(r)) in s.tasks[a.tid].docs))
      && (t.db.forensic == s.db.forensic
          || (a.Work? && a.tid in s.tasks && exists r ::
                t.db.forensic == s.db.forensic + [r] && Forensic(Some(r)) in s.tasks[a.tid].docs))
      && forall tid :: tid in t.tasks ==>
           if tid in s.tasks then t.tasks[tid].docs == s.tasks[tid].docs else a.Begin? && t.tasks[tid].docs == a.docs
  {
    if a.Work? && a.tid in s.tasks && s.tasks[a.tid].emitting.None? && s.tasks[a.tid].next < |s.tasks[a.tid].docs| {
      var t := s.tasks[a.tid];
      assert t.docs[t.next] in t.docs;
      DocAdds(s, a.tid, a.effect);
    }
  }

  lemma DocAdds(s: State, tid: Tid, e: Effect)
    requires tid in s.tasks && s.tasks[tid].emitting.None? && s.tasks[tid].next < |s.tasks[tid].docs|
    ensures var t, d := Do(s, Work(tid, e)), s.tasks[tid].docs[s.tasks[tid].next];
      && (t.db.reports == s.db.reports
          || exists row :: t.db.reports == s.db.reports + [row] && Aggregate(Some(row.report)) == d)
      && (t.db.tls == s.db.tls || exists r :: t.db.tls == s.db.tls + [r] && Tls(Some(r)) == d)
      && (t.db.forensic == s.db.forensic || exists r :: t.db.forensic == s.db.forensic + [r] && Forensic(Some(r)) == d)
      && forall k :: k in t.tasks ==> k in s.tasks && t.tasks[k].docs == s.tasks[k].docs
  {
    hide HasKey, HasTls, Fresh;
    var t := s.tasks[tid];
    match t.docs[t.next] {
      case Aggregate(Some(rep)) =>
        SaveAdds(s, tid, rep, e);
        hide SaveReport;
      case _ =>
    }
  }

  lemma SaveAdds(s: State, tid: Tid, rep: Report, e: Effect)
    requires tid in s.tasks
    ensures var t := SaveReport(s, tid, s.tasks[tid], rep, e);
      && (t.db.reports == s.db.reports || exists row :: t.db.reports == s.db.reports + [row] && row.report == rep)
      && t.db.tls == s.db.tls && t.db.forensic == s.db.forensic
      && forall k :: k in t.tasks ==> k in s.tasks && t.tasks[k].docs == s.tasks[k].docs
  {
    hide HasKey, Fresh;
    if !e.DbError? { assert Row(e.serial, rep).report == rep; }
  }

  lemma StepSent(s: State, acts: seq<Action>, a: Action)
    requires AllSent(s, acts)
    ensures AllSent(Do(s, a), acts + [a])
  {
    var t := Do(s, a);
    StepAdds(s, a);
    AllSentStays(s, acts, a);
    if a.Begin? {
      forall d | d in a.docs ensures Sent(acts + [a], d) { SentStays(acts, a, d); }
    }
    hide Do, Sent;
  }

  lemma {:induction false} RunSent(acts: seq<Action>)
    ensures AllSent(Run(INIT, acts), acts)
  {
    if acts == [] {
    } else {
      var n := |acts| - 1;
      RunSent(acts[..n]);
      StepSent(Run(INIT, acts[..n]), acts[..n], acts[n]);
      RunSnoc(INIT, acts[..n], acts[n]);
      assert acts == acts[..n] + [acts[n]];
    }
  }

  /** Over any run: nothing gets into the tables, whole or in part, but documents
      that were sent. */
  lemma RowsWereSent(acts: seq<Action>, i: nat)
    ensures var db := Run(INIT, acts).db;
      && (i < |db.reports| ==> Sent(acts, Aggregate(Some(db.reports[i].report))))
      && (i < |db.tls| ==> Sent(acts, Tls(Some(db.tls[i]))))
      && (i < |db.forensic| ==> Sent(acts, Forensic(Some(db.forensic[i]))))
  {
    RunSent(acts);
  }

  // --- what interruptions take from the observers ---

  /** A report whose commit is not acknowledged is in the table, and whatever follows,
      retries included, its upsert is never made: the retry finds a duplicate. */
  lemma UnackedIsNeverCounted(s: State, tid: Tid, rep: Report, serial: int, more: seq<Action>)
    requires Reachable(s) && tid in s.tasks && s.tasks[tid].emitting.None? && s.tasks[tid].next < |s.tasks[tid].docs|
    requires s.tasks[tid].docs[s.tasks[tid].next] == Aggregate(Some(rep))
    requires Fresh(s.db.reports, serial)
    requires forall i :: 0 <= i < |s.db.reports| ==> s.db.reports[i].report.key != rep.key
    ensures var s1 := Do(s, Work(tid, CommitUnacked(serial)));
            var s2 := Run(s1, more);
            var i := |s.db.reports|;
      && s1.db.reports == s.db.reports + [Row(serial, rep)] && tid !in s1.tasks
      && i < |s2.upserts| && s2.upserts[i] == 0
  {
    var a := Work(tid, CommitUnacked(serial));
    var s1 := Do(s, a);
    ReachableInv(s);
    ReachableStep(s, a);
    assert s1.fates[|s.db.reports|] == Lost(false);
    AtMostOneUpsert(s1, more, |s.db.reports|);
  }

  /** A report whose observers have not had their turn when the process dies never
      gets an upsert. */
  lemma CrashedIsNeverCounted(s: State, tid: Tid, i: nat, more: seq<Action>)
    requires Reachable(s) && tid in s.tasks && s.tasks[tid].emitting == Some(i)
    ensures i < |s.db.reports| && i < |Run(Do(s, Crash), more).upserts| && Run(Do(s, Crash), more).upserts[i] == 0
  {
    ReachableInv(s);
    assert Emits(s, tid, i) && Flying(s, i);
    ReachableStep(s, Crash);
    AtMostOneUpsert(Do(s, Crash), more, i);
  }
}
