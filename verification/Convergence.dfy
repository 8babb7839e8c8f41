/** Sending a body again until one attempt gets through, while the rest of the
    system goes on working: what becomes of the two tables with keys. */
module Convergence {
  import opened Reports
  import opened Ingest
  import opened IngestTheorems

  // --- the part of the tables a body is about ---

  /** Keys of aggregate reports, and (org, report id) pairs of TLS reports. */
  datatype Scope = Scope(keys: Key -> bool, tlsKeys: (string, string) -> bool)

  predicate Covers(sc: Scope, d: Doc) {
    match d
    case Aggregate(Some(rep)) => sc.keys(rep.key)
    case Tls(Some(r)) => sc.tlsKeys(r.org, r.reportId)
    case _ => false
  }

  predicate Keyed(d: Doc) { (d.Aggregate? && d.rep.Some?) || (d.Tls? && d.tls.Some?) }

  /** Every report of the body that has a key is covered. */
  ghost predicate Within(docs: seq<Doc>, sc: Scope) {
    forall j :: 0 <= j < |docs| && Keyed(docs[j]) ==> Covers(sc, docs[j])
  }

  /** No report of the body is. */
  ghost predicate Foreign(docs: seq<Doc>, sc: Scope) {
    forall j :: 0 <= j < |docs| ==> !Covers(sc, docs[j])
  }

  /** The reports whose key is covered, in table order. */
  function Own(table: seq<Report>, sc: Scope): seq<Report> {
    if table == [] then []
    else
      var last := table[|table| - 1];
      Own(table[..|table| - 1], sc) + if sc.keys(last.key) then [last] else []
  }

  function OwnTls(tls: seq<TlsReport>, sc: Scope): seq<TlsReport> {
    if tls == [] then []
    else
      var last := tls[|tls| - 1];
      OwnTls(tls[..|tls| - 1], sc) + if sc.tlsKeys(last.org, last.reportId) then [last] else []
  }

  lemma OwnAppend(table: seq<Report>, rep: Report, sc: Scope)
    ensures Own(table + [rep], sc) == Own(table, sc) + if sc.keys(rep.key) then [rep] else []
  {
    assert (table + [rep])[..|table|] == table;
  }

  lemma OwnTlsAppend(tls: seq<TlsReport>, r: TlsReport, sc: Scope)
    ensures OwnTls(tls + [r], sc) == OwnTls(tls, sc) + if sc.tlsKeys(r.org, r.reportId) then [r] else []
  {
    assert (tls + [r])[..|tls|] == tls;
  }

  lemma HoldsAppend(table: seq<Report>, rep: Report, k: Key)
    ensures Holds(table + [rep], k) <==> Holds(table, k) || rep.key == k
  {
    var more := table + [rep];
    if Holds(table, k) {
      var i :| 0 <= i < |table| && table[i].key == k;
      assert more[i].key == k;
    }
    assert more[|table|] == rep;
  }

  predicate SameTlsKey(a: TlsReport, b: TlsReport) { a.org == b.org && a.reportId == b.reportId }

  lemma HasTlsAppend(tls: seq<TlsReport>, a: TlsReport, r: TlsReport)
    ensures HasTls(tls + [a], r) <==> HasTls(tls, r) || SameTlsKey(a, r)
  {
    var more := tls + [a];
    if HasTls(tls, r) {
      var i :| 0 <= i < |tls| && tls[i].org == r.org && tls[i].reportId == r.reportId;
      assert more[i] == tls[i];
    }
    assert more[|tls|] == a;
  }

  lemma {:induction false} OwnHolds(table: seq<Report>, sc: Scope, k: Key)
    requires sc.keys(k)
    ensures Holds(Own(table, sc), k) <==> Holds(table, k)
  {
    if table == [] {
    } else {
      var n := |table| - 1;
      OwnHolds(table[..n], sc, k);
      assert table == table[..n] + [table[n]];
      OwnAppend(table[..n], table[n], sc);
      HoldsAppend(table[..n], table[n], k);
      HoldsAppend(Own(table[..n], sc), table[n], k);
      assert Own(table, sc) == Own(table[..n], sc) || Own(table, sc) == Own(table[..n], sc) + [table[n]];
    }
  }

  lemma {:induction false} OwnHasTls(tls: seq<TlsReport>, sc: Scope, r: TlsReport)
    requires sc.tlsKeys(r.org, r.reportId)
    ensures HasTls(OwnTls(tls, sc), r) <==> HasTls(tls, r)
  {
    if tls == [] {
    } else {
      var n := |tls| - 1;
      OwnHasTls(tls[..n], sc, r);
      assert tls == tls[..n] + [tls[n]];
      OwnTlsAppend(tls[..n], tls[n], sc);
      HasTlsAppend(tls[..n], tls[n], r);
      HasTlsAppend(OwnTls(tls[..n], sc), tls[n], r);
      assert OwnTls(tls, sc) == OwnTls(tls[..n], sc) || OwnTls(tls, sc) == OwnTls(tls[..n], sc) + [tls[n]];
    }
  }

  lemma {:induction false} OwnAll(table: seq<Report>, sc: Scope)
    requires forall k :: sc.keys(k)
    ensures Own(table, sc) == table
  {
    if table == [] {
    } else {
      OwnAll(table[..|table| - 1], sc);
    }
  }

  lemma {:induction false} OwnTlsAll(tls: seq<TlsReport>, sc: Scope)
    requires forall org, id :: sc.tlsKeys(org, id)
    ensures OwnTls(tls, sc) == tls
  {
    if tls == [] {
    } else {
      OwnTlsAll(tls[..|tls| - 1], sc);
    }
  }

  // --- what every step keeps ---

  /** What is sent again, what it may be about, and the tables it started from. */
  datatype Aim = Aim(docs: seq<Doc>, scope: Scope, table: seq<Report>, tls: seq<TlsReport>)

  /** On the covered keys both tables are those of a clean pass over the first n
      documents. */
  ghost predicate TablesAt(db: Db, g: Aim, n: nat) {
    && n <= |g.docs|
    && Own(Table(db.reports), g.scope) == Own(SaveAll(g.table, g.docs, n), g.scope)
    && OwnTls(db.tls, g.scope) == OwnTls(SaveAllTls(g.tls, g.docs, n), g.scope)
  }

  ghost predicate Sender(t: Task, g: Aim, n: nat) {
    Foreign(t.docs, g.scope) || (t.docs == g.docs && t.next <= n)
  }

  /** Nobody who sends the body is ahead, and nobody else touches covered keys. */
  ghost predicate Resending(s: State, g: Aim, n: nat) {
    TablesAt(s.db, g, n) && forall tid :: tid in s.tasks ==> Sender(s.tasks[tid], g, n)
  }

  /** Whoever starts to send covered reports sends the body. */
  ghost predicate OnlyBody(acts: seq<Action>, g: Aim) {
    forall k :: 0 <= k < |acts| && acts[k].Begin? ==> acts[k].docs == g.docs || Foreign(acts[k].docs, g.scope)
  }

  predicate Stores(s: State, tid: Tid) {
    tid in s.tasks && s.tasks[tid].emitting.None? && s.tasks[tid].next < |s.tasks[tid].docs|
  }

  predicate Passes(s: State, a: Action, docs: seq<Doc>, n: nat) {
    && a.Work? && Stores(s, a.tid) && s.tasks[a.tid].docs == docs && s.tasks[a.tid].next == n
    && var s' := Do(s, a);
       || s'.db.reports != s.db.reports || s'.db.tls != s.db.tls
       || (a.tid in s'.tasks && s'.tasks[a.tid].next == n + 1)
  }

  /** How far the body has got after the step. */
  function Reach(s: State, a: Action, docs: seq<Doc>, n: nat): nat {
    if Passes(s, a, docs, n) then n + 1 else n
  }

  /** A step that stores nothing. */
  lemma OthersStep(s: State, a: Action, g: Aim, n: nat)
    requires Resending(s, g, n) && (a.Begin? ==> a.docs == g.docs || Foreign(a.docs, g.scope))
    requires a.Work? ==> !Stores(s, a.tid)
    ensures Resending(Do(s, a), g, n)
  {
    var t := Do(s, a);
    assert t.db.reports == s.db.reports && t.db.tls == s.db.tls;
    forall tid | tid in t.tasks ensures Sender(t.tasks[tid], g, n) {
      if tid in s.tasks { assert Sender(s.tasks[tid], g, n); }
    }
  }

  /** The document is a report with a key, and no row has it. */
  predicate Missing(db: Db, d: Doc) {
    match d
    case Aggregate(Some(rep)) => !HasKey(db.reports, rep.key)
    case Tls(Some(r)) => !HasTls(db.tls, r)
    case _ => false
  }

  /** The keyed tables are unchanged, or the missing report was added. */
  predicate Added(db: Db, db': Db, d: Doc, serial: int) {
    || (db'.reports == db.reports && db'.tls == db.tls)
    || (Missing(db, d) && d.Aggregate? && db'.tls == db.tls && db'.reports == db.reports + [Row(serial, d.rep.value)])
    || (Missing(db, d) && d.Tls? && db'.reports == db.reports && db'.tls == db.tls + [d.tls.value])
  }

  function SerialOf(e: Effect): int { if e.DbError? then 0 else e.serial }

  /** What a writer's step can do to the keyed tables and to its own task. */
  lemma StoreStep(s: State, tid: Tid, e: Effect)
    requires Stores(s, tid)
    ensures var s', t := Do(s, Work(tid, e)), s.tasks[tid];
            var d := t.docs[t.next];
            var same := s'.db.reports == s.db.reports && s'.db.tls == s.db.tls;
      && Added(s.db, s'.db, d, SerialOf(e))
      && (tid in s'.tasks ==> s'.tasks[tid].docs == t.docs && t.next <= s'.tasks[tid].next <= t.next + 1)
      && (tid in s'.tasks && !same ==> s'.tasks[tid].next == t.next + 1)
      && (tid in s'.tasks && same && s'.tasks[tid].next == t.next + 1 ==> !Missing(s.db, d))
      && (forall other :: other in s'.tasks ==>
            other in s.tasks && (other != tid ==> s'.tasks[other] == s.tasks[other]))
  {
  }

  /** A store call of a writer whose report is not covered. */
  lemma ForeignSave(s: State, tid: Tid, e: Effect, g: Aim, n: nat)
    requires Resending(s, g, n) && Stores(s, tid) && Foreign(s.tasks[tid].docs, g.scope)
    ensures Resending(Do(s, Work(tid, e)), g, n)
  {
    var s', t := Do(s, Work(tid, e)), s.tasks[tid];
    StoreStep(s, tid, e);
    hide Do;
    ForeignRow(s.db, s'.db, t.docs[t.next], SerialOf(e), g.scope);
    forall k | k in s'.tasks ensures Sender(s'.tasks[k], g, n) { assert Sender(s.tasks[k], g, n); }
  }

  lemma ForeignRow(db: Db, db': Db, d: Doc, serial: int, sc: Scope)
    requires Added(db, db', d, serial) && !Covers(sc, d)
    ensures Own(Table(db'.reports), sc) == Own(Table(db.reports), sc) && OwnTls(db'.tls, sc) == OwnTls(db.tls, sc)
  {
    if db'.reports != db.reports {
      TableAppends(db.reports, Row(serial, d.rep.value));
      OwnAppend(Table(db.reports), d.rep.value, sc);
    }
    if db'.tls != db.tls { OwnTlsAppend(db.tls, d.tls.value, sc); }
  }

  lemma TableAppends(rows: seq<Row>, row: Row)
    ensures Table(rows + [row]) == Table(rows) + [row.report]
  {
  }

  lemma {:induction false} SaveAllTlsHas(tls: seq<TlsReport>, docs: seq<Doc>, n: nat, j: nat)
    requires j < n <= |docs| && docs[j].Tls? && docs[j].tls.Some?
    ensures HasTls(SaveAllTls(tls, docs, n), docs[j].tls.value)
  {
    var t, r := SaveAllTls(tls, docs, n - 1), docs[j].tls.value;
    if j == n - 1 {
      HasTlsAppend(t, r, r);
    } else {
      SaveAllTlsHas(tls, docs, n - 1, j);
      if docs[n - 1].Tls? && docs[n - 1].tls.Some? { HasTlsAppend(t, docs[n - 1].tls.value, r); }
    }
  }

  /** What is missing in the tables is missing in the clean pass; what the pass has
      been through is missing in neither. */
  lemma PassAgrees(db: Db, g: Aim, n: nat, i: nat)
    requires TablesAt(db, g, n) && Within(g.docs, g.scope) && i <= n && i < |g.docs|
    ensures var d := g.docs[i];
      && (d.Aggregate? && d.rep.Some? ==> (Missing(db, d) <==> !Holds(SaveAll(g.table, g.docs, n), d.rep.value.key)))
      && (d.Tls? && d.tls.Some? ==> (Missing(db, d) <==> !HasTls(SaveAllTls(g.tls, g.docs, n), d.tls.value)))
      && (i < n ==> !Missing(db, d))
  {
    var d := g.docs[i];
    match d
    case Aggregate(Some(rep)) =>
      assert Keyed(d);
      TableHolds(db.reports, rep.key);
      OwnHolds(Table(db.reports), g.scope, rep.key);
      OwnHolds(SaveAll(g.table, g.docs, n), g.scope, rep.key);
      if i < n { SaveAllHolds(g.table, g.docs, n, i); }
    case Tls(Some(r)) =>
      assert Keyed(d);
      OwnHasTls(db.tls, g.scope, r);
      OwnHasTls(SaveAllTls(g.tls, g.docs, n), g.scope, r);
      if i < n { SaveAllTlsHas(g.tls, g.docs, n, i); }
    case _ =>
  }

  /** The tables after a step on document i of the body, of which n are through. */
  lemma BodyStep(db: Db, db': Db, g: Aim, n: nat, i: nat, serial: int)
    requires TablesAt(db, g, n) && Within(g.docs, g.scope) && i <= n && i < |g.docs|
    requires Added(db, db', g.docs[i], serial)
    ensures var same := db'.reports == db.reports && db'.tls == db.tls;
      && (!same ==> i == n && TablesAt(db', g, n + 1))
      && (same ==> TablesAt(db', g, n))
      && (same && i == n && !Missing(db, g.docs[i]) ==> TablesAt(db', g, n + 1))
  {
    PassAgrees(db, g, n, i);
    match g.docs[i]
    case Aggregate(Some(rep)) =>
      TableAppends(db.reports, Row(serial, rep));
      OwnAppend(Table(db.reports), rep, g.scope);
      OwnAppend(SaveAll(g.table, g.docs, n), rep, g.scope);
      assert Keyed(g.docs[i]);
    case Tls(Some(r)) =>
      OwnTlsAppend(db.tls, r, g.scope);
      OwnTlsAppend(SaveAllTls(g.tls, g.docs, n), r, g.scope);
      assert Keyed(g.docs[i]);
    case _ =>
  }

  /** A store call of a writer that sends the body. */
  lemma BodySave(s: State, tid: Tid, e: Effect, g: Aim, n: nat)
    requires Resending(s, g, n) && Within(g.docs, g.scope)
    requires Stores(s, tid) && s.tasks[tid].docs == g.docs && s.tasks[tid].next <= n
    ensures Resending(Do(s, Work(tid, e)), g, Reach(s, Work(tid, e), g.docs, n))
  {
    var t, s' := s.tasks[tid], Do(s, Work(tid, e));
    StoreStep(s, tid, e);
    hide Do, Missing, Added, TablesAt, Within;
    BodyStep(s.db, s'.db, g, n, t.next, SerialOf(e));
    forall k | k in s'.tasks ensures Sender(s'.tasks[k], g, Reach(s, Work(tid, e), g.docs, n)) {
      assert k in s.tasks && Sender(s.tasks[k], g, n);
    }
  }

  lemma ResendStep(s: State, a: Action, g: Aim, n: nat)
    requires Resending(s, g, n) && Within(g.docs, g.scope)
    requires a.Begin? ==> a.docs == g.docs || Foreign(a.docs, g.scope)
    ensures Resending(Do(s, a), g, Reach(s, a, g.docs, n))
  {
    if a.Work? && Stores(s, a.tid) {
      var t := s.tasks[a.tid];
      assert Sender(t, g, n);
      if t.docs == g.docs && t.next <= n {
        BodySave(s, a.tid, a.effect, g, n);
      } else {
        ForeignSave(s, a.tid, a.effect, g, n);
      }
    } else {
      OthersStep(s, a, g, n);
    }
  }

  lemma {:induction false} ResendRun(s: State, acts: seq<Action>, g: Aim, n: nat) returns (m: nat)
    requires Resending(s, g, n) && Within(g.docs, g.scope) && OnlyBody(acts, g)
    ensures n <= m && Resending(Run(s, acts), g, m)
    decreases |acts|
  {
    if acts == [] {
      m := n;
    } else {
      ResendStep(s, acts[0], g, n);
      m := ResendRun(Do(s, acts[0]), acts[1..], g, Reach(s, acts[0], g.docs, n));
    }
  }

  // --- theorems ---

  /** A body may be sent any number of times, by any callers at once, with every
      attempt cut off anywhere by an error or a crash, while other writers go on
      with other bodies. As soon as one attempt has come to its end, the report and
      TLS tables are, on the keys the others leave alone, those a single clean pass
      would have left, rows in the same order, and stay so whatever is sent
      afterwards. */
  lemma Converges(s: State, g: Aim, tries: seq<Action>, more: seq<Action>, tid: Tid)
    requires g.table == Table(s.db.reports) && g.tls == s.db.tls
    requires Within(g.docs, g.scope) && forall t :: t in s.tasks ==> Sender(s.tasks[t], g, 0)
    requires OnlyBody(tries, g) && OnlyBody(more, g)
    requires var t := Run(s, tries).tasks; tid in t && t[tid].docs == g.docs && Done(t[tid])
    ensures TablesAt(Run(Run(s, tries), more).db, g, |g.docs|)
  {
    hide *;
    FirstAttempt(s, g, tries, tid);
    LaterAttempts(Run(s, tries), g, more);
  }

  lemma FirstAttempt(s: State, g: Aim, tries: seq<Action>, tid: Tid)
    requires g.table == Table(s.db.reports) && g.tls == s.db.tls
    requires Within(g.docs, g.scope) && forall t :: t in s.tasks ==> Sender(s.tasks[t], g, 0)
    requires OnlyBody(tries, g)
    requires var t := Run(s, tries).tasks; tid in t && t[tid].docs == g.docs && Done(t[tid])
    ensures Resending(Run(s, tries), g, |g.docs|)
  {
    NothingSent(s, g);
    hide *;
    var n := ResendRun(s, tries, g, 0);
    FinishedIsThrough(Run(s, tries), tid, g, n);
  }

  lemma NothingSent(s: State, g: Aim)
    requires g.table == Table(s.db.reports) && g.tls == s.db.tls
    requires forall t :: t in s.tasks ==> Sender(s.tasks[t], g, 0)
    ensures Resending(s, g, 0)
  {
  }

  lemma LaterAttempts(s: State, g: Aim, more: seq<Action>)
    requires Resending(s, g, |g.docs|) && Within(g.docs, g.scope) && OnlyBody(more, g)
    ensures TablesAt(Run(s, more).db, g, |g.docs|)
  {
    hide Run, TablesAt;
    ResendBound(s, more, g);
  }

  lemma ResendBound(s: State, more: seq<Action>, g: Aim)
    requires Resending(s, g, |g.docs|) && Within(g.docs, g.scope) && OnlyBody(more, g)
    ensures Resending(Run(s, more), g, |g.docs|)
  {
    var m := ResendRun(s, more, g, |g.docs|);
    hide Run;
    assert m <= |g.docs|;
  }

  /** Once an attempt has ended the whole body is through. */
  lemma FinishedIsThrough(s: State, tid: Tid, g: Aim, n: nat)
    requires Resending(s, g, n) && Within(g.docs, g.scope)
    requires tid in s.tasks && s.tasks[tid].docs == g.docs && Done(s.tasks[tid])
    ensures Resending(s, g, |g.docs|)
  {
    assert Sender(s.tasks[tid], g, n);
    if Foreign(g.docs, g.scope) { NothingToSave(g, n, |g.docs|); }
    forall k | k in s.tasks ensures Sender(s.tasks[k], g, |g.docs|) { assert Sender(s.tasks[k], g, n); }
  }

  /** A body that is both covered and not has no keyed report. */
  lemma {:induction false} NothingToSave(g: Aim, n: nat, m: nat)
    requires n <= m <= |g.docs| && Within(g.docs, g.scope) && Foreign(g.docs, g.scope)
    ensures SaveAll(g.table, g.docs, n) == SaveAll(g.table, g.docs, m)
    ensures SaveAllTls(g.tls, g.docs, n) == SaveAllTls(g.tls, g.docs, m)
  {
    if m == n {
    } else {
      NothingToSave(g, n, m - 1);
      assert !Keyed(g.docs[m - 1]);
    }
  }

  /** If nobody sends anything else, those are the whole tables. */
  lemma ConvergesExactly(s: State, docs: seq<Doc>, tries: seq<Action>, more: seq<Action>, tid: Tid)
    requires s.tasks == map[]
    requires forall k :: 0 <= k < |tries| ==> tries[k].Begin? ==> tries[k].docs == docs
    requires forall k :: 0 <= k < |more| ==> more[k].Begin? ==> more[k].docs == docs
    requires var t := Run(s, tries).tasks; tid in t && t[tid].docs == docs && Done(t[tid])
    ensures var db := Run(Run(s, tries), more).db;
      && Table(db.reports) == SaveAll(Table(s.db.reports), docs, |docs|)
      && db.tls == SaveAllTls(s.db.tls, docs, |docs|)
  {
    hide Run;
    var all := Scope(_ => true, (_, _) => true);
    var g := Aim(docs, all, Table(s.db.reports), s.db.tls);
    Converges(s, g, tries, more, tid);
    WholeTables(Run(Run(s, tries), more).db, g);
  }

  lemma WholeTables(db: Db, g: Aim)
    requires TablesAt(db, g, |g.docs|) && (forall k :: g.scope.keys(k)) && forall org, id :: g.scope.tlsKeys(org, id)
    ensures Table(db.reports) == SaveAll(g.table, g.docs, |g.docs|) && db.tls == SaveAllTls(g.tls, g.docs, |g.docs|)
  {
    OwnAll(Table(db.reports), g.scope);
    OwnAll(SaveAll(g.table, g.docs, |g.docs|), g.scope);
    OwnTlsAll(db.tls, g.scope);
    OwnTlsAll(SaveAllTls(g.tls, g.docs, |g.docs|), g.scope);
  }
}
