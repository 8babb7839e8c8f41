/** The two writers of the report tables as they are written: the poller's
    processMail and cycle, and the ingest endpoint, over a store whose calls may
    fail at any statement, or take effect and still report an error. The
    interleaved, crashing system is module Ingest; here one caller runs alone. */
module Service {
  import opened Reports
  import opened Rollup
  import opened Ingest
  import opened IngestTheorems
  import opened Mailroom

  /** What a save answers: the serial or id of the stored row, and whether it was
      there before. */
  datatype SaveResult = Saved(serial: int, duplicate: bool, records: nat, messages: int) | SaveFailed

  datatype Status = Created | AllDuplicate | BadRequest | ServerError

  /** How a call to the store goes wrong: one of its statements fails and the
      transaction is rolled back, or it commits and the answer is lost. */
  datatype Fault = At(statement: nat) | Unanswered

  predicate TakesEffect(f: Option<Fault>) { f.None? || f == Some(Unanswered) }

  /** The state a pass over some documents starts from. */
  datatype Before = Before(rows: seq<Row>, tls: seq<TlsReport>, forensic: seq<ForensicReport>, emitted: seq<Row>)

  // --- what a pass over the first n documents leaves in the other tables ---

  function SaveAllForensic(forensic: seq<ForensicReport>, docs: seq<Doc>, n: nat): seq<ForensicReport>
    requires n <= |docs|
  {
    if n == 0 then forensic
    else
      var t := SaveAllForensic(forensic, docs, n - 1);
      match docs[n - 1]
      case Forensic(Some(r)) => t + [r]
      case _ => t
  }

  /** A pass over one more document, table by table. */
  lemma PassStep(docs: seq<Doc>, n: nat, table: seq<Report>, tls: seq<TlsReport>, forensic: seq<ForensicReport>)
    requires n < |docs|
    ensures CountParsed(docs, n + 1) == CountParsed(docs, n) + if docs[n].Parses() then 1 else 0
    ensures !(docs[n].Aggregate? && docs[n].rep.Some?) ==> SaveAll(table, docs, n + 1) == SaveAll(table, docs, n)
    ensures SaveAllTls(tls, docs, n + 1) == match docs[n]
      case Tls(Some(r)) => SaveTls(SaveAllTls(tls, docs, n), r)
      case _ => SaveAllTls(tls, docs, n)
    ensures SaveAllForensic(forensic, docs, n + 1) == match docs[n]
      case Forensic(Some(r)) => SaveAllForensic(forensic, docs, n) + [r]
      case _ => SaveAllForensic(forensic, docs, n)
  {
  }

  /** The report tables as the ingest machine sees them. */
  function View(rows: seq<Row>, tls: seq<TlsReport>, forensic: seq<ForensicReport>): Db {
    Db(rows, tls, forensic, map[])
  }

  /** What a save may leave and answer, given what goes wrong in it. */
  ghost predicate SaveSpec(f: Option<Fault>, rows: seq<Row>, rows': seq<Row>, r: Report, res: SaveResult) {
    && (f.None? ==> res.Saved?)
    && (f == Some(Unanswered) ==> res.SaveFailed?)
    && ((res.SaveFailed? && f != Some(Unanswered)) || HasKey(rows, r.key) ==> rows' == rows)
    && (res.Saved? || f == Some(Unanswered) ==> HasKey(rows, r.key) || Appended(rows, rows', r))
    && (res.Saved? ==>
          && (res.duplicate <==> HasKey(rows, r.key))
          && Lookup(rows', r.key).Some? && Lookup(rows', r.key).value.serial == res.serial
          && (!res.duplicate ==> res.records == |r.records| && res.messages == SumIf(r.records, Every)))
  }

  predicate Appended(rows: seq<Row>, rows': seq<Row>, r: Report) {
    |rows'| == |rows| + 1 && rows' == rows + [Row(rows'[|rows|].serial, r)]
  }

  lemma DistinctAppend(rows: seq<Row>, row: Row)
    requires DistinctRows(rows) && !HasKey(rows, row.report.key) && Fresh(rows, row.serial)
    ensures DistinctRows(rows + [row]) && Lookup(rows + [row], row.report.key) == Some(row)
  {
  }

  class Store {
    var reports: seq<Row>
    var tls: seq<TlsReport>
    var tlsIds: seq<int>
    var forensic: seq<ForensicReport>
    var forensicIds: seq<int>
    var nextSerial: int
    var nextTls: int
    var nextForensic: int
    /** Rows handed to the observers, in order. */
    var emitted: seq<Row>
    var calls: nat
    /** What goes wrong in the k-th call, if anything does. */
    const fault: nat -> Option<Fault>

    ghost predicate Valid()
      reads this
    {
      && DistinctRows(reports)
      && 0 < nextSerial
      && (forall i :: 0 <= i < |reports| ==> 0 < reports[i].serial < nextSerial)
      && IdsOk(tlsIds, |tls|, nextTls)
      && IdsOk(forensicIds, |forensic|, nextForensic)
    }

    constructor (fault: nat -> Option<Fault>)
      ensures Valid() && reports == [] && tls == [] && forensic == [] && emitted == [] && calls == 0
      ensures this.fault == fault
    {
      reports, tls, tlsIds, forensic, forensicIds, emitted, calls := [], [], [], [], [], [], 0;
      nextSerial, nextTls, nextForensic := 1, 1, 1;
      this.fault := fault;
    }

    /** A report and its records in one transaction: a failure at any statement
        leaves both tables alone, a duplicate returns the serial of the row that is
        there, and a lost answer hides a transaction that took effect. */
    method SaveReport(r: Report) returns (res: SaveResult)
      requires Valid()
      modifies this`reports, this`nextSerial, this`calls
      ensures Valid() && calls == old(calls) + 1
      ensures SaveSpec(old(fault(calls)), old(reports), reports, r, res)
    {
      hide IdsOk, DistinctRows;
      var f := fault(calls);
      calls := calls + 1;
      if f == Some(At(0)) {
        return SaveFailed;
      }
      var serial := nextSerial;
      nextSerial := nextSerial + 1;
      var found := Lookup(reports, r.key);
      LookupFinds(reports, r.key);
      if found.Some? {
        var answered := f != Some(At(1)) && f != Some(Unanswered);
        return if answered then Saved(found.value.serial, true, 0, 0) else SaveFailed;
      }
      var inserted: seq<Record>, records, messages := [], 0, 0;
      for i := 0 to |r.records|
        invariant inserted == r.records[..i] && records == i && messages == SumIf(r.records[..i], Every)
      {
        if f == Some(At(1 + i)) {
          return SaveFailed;
        }
        assert r.records[..i + 1][..i] == r.records[..i];
        inserted := inserted + [r.records[i]];
        records := records + 1;
        messages := messages + r.records[i].count;
      }
      assert r.records[..|r.records|] == r.records;
      if f == Some(At(1 + |r.records|)) {
        return SaveFailed;
      }
      DistinctAppend(reports, Row(serial, r));
      reports := reports + [Row(serial, r.(records := inserted))];
      return if f == Some(Unanswered) then SaveFailed else Saved(serial, false, records, messages);
    }

    /** A TLS report is stored once per (org, report id); the answer is the id of the
        row that holds it. */
    method SaveTlsReport(r: TlsReport) returns (res: SaveResult)
      requires Valid()
      modifies this`tls, this`tlsIds, this`nextTls, this`calls
      ensures Valid() && calls == old(calls) + 1
      ensures old(fault(calls)).None? <==> res.Saved?
      ensures tls == if TakesEffect(old(fault(calls))) then SaveTls(old(tls), r) else old(tls)
      ensures old(tlsIds) <= tlsIds
      ensures res.Saved? ==> (res.duplicate <==> HasTls(old(tls), r))
      ensures res.Saved? ==> exists i :: 0 <= i < |tls| && SameTls(tls[i], r) && tlsIds[i] == res.serial
    {
      var f := fault(calls);
      calls := calls + 1;
      if f.Some? && f.value.At? {
        return SaveFailed;
      }
      var id := nextTls;
      nextTls := nextTls + 1;
      var i := FindTls(tls, r);
      if i < |tls| {
        res := if f.None? then Saved(tlsIds[i], true, 0, 0) else SaveFailed;
        return;
      }
      tls, tlsIds := tls + [r], tlsIds + [id];
      assert tls[i] == r && tlsIds[i] == id;
      res := if f.None? then Saved(id, false, 0, 0) else SaveFailed;
    }

    /** A failure report has no key: every save that takes effect adds a row. */
    method SaveForensic(r: ForensicReport) returns (res: SaveResult)
      requires Valid()
      modifies this`forensic, this`forensicIds, this`nextForensic, this`calls
      ensures Valid() && calls == old(calls) + 1
      ensures old(fault(calls)).None? <==> res.Saved?
      ensures forensic == old(forensic) + if TakesEffect(old(fault(calls))) then [r] else []
      ensures old(forensicIds) <= forensicIds
      ensures res.Saved? ==> res.serial == forensicIds[|forensic| - 1] && res.serial !in old(forensicIds)
    {
      var f := fault(calls);
      calls := calls + 1;
      if f.Some? && f.value.At? {
        return SaveFailed;
      }
      forensic, forensicIds := forensic + [r], forensicIds + [nextForensic];
      res := if f.None? then Saved(nextForensic, false, 0, 0) else SaveFailed;
      nextForensic := nextForensic + 1;
    }

    /** The tables are those of a clean pass over the first n documents, and the
        new rows have been emitted, once each and in order. */
    ghost predicate PassedTo(docs: seq<Doc>, n: nat, was: Before)
      reads this
      requires n <= |docs|
    {
      TablesAt(docs, n, was) && emitted == was.emitted + reports[|was.rows|..]
    }

    ghost predicate TablesAt(docs: seq<Doc>, n: nat, was: Before)
      reads this
      requires n <= |docs|
    {
      && Table(reports) == SaveAll(Table(was.rows), docs, n)
      && tls == SaveAllTls(was.tls, docs, n)
      && forensic == SaveAllForensic(was.forensic, docs, n)
      && was.rows <= reports
    }

    /** The call for document n took effect and nobody knows: the tables are one
        document further than the emissions. */
    ghost predicate Unheard(docs: seq<Doc>, n: nat, was: Before)
      reads this
      requires n < |docs|
    {
      && TablesAt(docs, n + 1, was)
      && exists m :: |was.rows| <= m <= |reports| <= m + 1
           && Table(reports[..m]) == SaveAll(Table(was.rows), docs, n)
           && emitted == was.emitted + reports[|was.rows|..m]
    }

    /** Where a failing call for document n leaves things. */
    ghost predicate Stopped(docs: seq<Doc>, n: nat, was: Before)
      reads this
      requires n < |docs|
    {
      && 0 < calls && fault(calls - 1).Some?
      && if fault(calls - 1) == Some(Unanswered) then Unheard(docs, n, was) else PassedTo(docs, n, was)
    }

    /** Save one report and, if it is new, hand it to the observers. */
    method SaveAndEmit(rep: Report, ghost docs: seq<Doc>, ghost n: nat, ghost was: Before) returns (res: SaveResult)
      requires Valid() && n < |docs| && docs[n] == Aggregate(Some(rep)) && PassedTo(docs, n, was)
      modifies this`reports, this`nextSerial, this`calls, this`emitted
      ensures Valid() && calls == old(calls) + 1 && old(reports) <= reports
      ensures res.SaveFailed? ==> Stopped(docs, n, was)
      ensures res.Saved? ==> PassedTo(docs, n + 1, was)
      ensures res.Saved? ==> (res.duplicate <==> reports == old(reports))
      ensures res.Saved? ==> Answers(res, rep, Table(old(reports)), reports)
    {
      hide SaveAllTls, SaveAllForensic, CountParsed, IdsOk, DistinctRows, SumIf;
      ghost var rows := reports;
      TableHolds(rows, rep.key);
      PassStep(docs, n, Table(was.rows), was.tls, was.forensic);
      res := SaveReport(rep);
      SavedTable(rows, reports, rep, docs, n, Table(was.rows));
      if res.Saved? && !res.duplicate {
        emitted := emitted + [Row(res.serial, rep)];
        assert reports[|was.rows|..] == rows[|was.rows|..] + [Row(res.serial, rep)];
      }
      if res.SaveFailed? && fault(calls - 1) == Some(Unanswered) {
        assert reports[..|rows|] == rows;
        assert Unheard(docs, n, was);
      }
    }

    /** The first of processMail's three loops; ok is false when a store call
        failed. */
    method StoreAggregates(ghost docs: seq<Doc>, reps: seq<Option<Report>>, ghost was: Before)
      returns (ok: bool, stored: nat, parseErrs: nat, ghost n: nat)
      requires Valid() && |reps| <= |docs| && forall i :: 0 <= i < |reps| ==> docs[i] == Aggregate(reps[i])
      requires PassedTo(docs, 0, was)
      modifies this`reports, this`nextSerial, this`calls, this`emitted
      ensures Valid() && old(calls) <= calls
      ensures ok ==> n == |reps| && PassedTo(docs, n, was) && Counted(docs, 0, n, stored, parseErrs)
      ensures !ok ==> n < |reps| && old(calls) < calls && Stopped(docs, n, was)
    {
      hide SaveAll, SaveAllTls, SaveAllForensic, CountParsed, DistinctRows, IdsOk;
      stored, parseErrs, n := 0, 0, 0;
      for i := 0 to |reps|
        invariant Valid() && n == i && old(calls) <= calls
        invariant Counted(docs, 0, i, stored, parseErrs) && PassedTo(docs, i, was)
      {
        PassStep(docs, i, Table(was.rows), was.tls, was.forensic);
        match reps[i] {
          case None => parseErrs := parseErrs + 1;
          case Some(rep) =>
            var res := SaveAndEmit(rep, docs, i, was);
            if res.SaveFailed? {
              return false, stored, parseErrs, n;
            }
            stored := stored + 1;
        }
        n := n + 1;
      }
      ok := true;
    }

    method StoreTls(ghost docs: seq<Doc>, ghost base: nat, reps: seq<Option<TlsReport>>, ghost was: Before)
      returns (ok: bool, stored: nat, parseErrs: nat, ghost n: nat)
      requires base + |reps| <= |docs| && forall i :: 0 <= i < |reps| ==> docs[base + i] == Tls(reps[i])
      requires Valid() && PassedTo(docs, base, was)
      modifies this`tls, this`tlsIds, this`nextTls, this`calls
      ensures Valid() && old(calls) <= calls
      ensures ok ==> n == base + |reps| && PassedTo(docs, n, was) && Counted(docs, base, n, stored, parseErrs)
      ensures !ok ==> n < base + |reps| && old(calls) < calls && Stopped(docs, n, was)
    {
      hide SaveAll, SaveAllTls, SaveAllForensic, CountParsed, SaveTls, HasTls, DistinctRows, IdsOk;
      stored, parseErrs, n := 0, 0, base;
      for i := 0 to |reps|
        invariant Valid() && n == base + i && old(calls) <= calls
        invariant Counted(docs, base, n, stored, parseErrs) && PassedTo(docs, n, was)
      {
        assert docs[base + i] == Tls(reps[i]);
        PassStep(docs, n, Table(was.rows), was.tls, was.forensic);
        match reps[i] {
          case None => parseErrs := parseErrs + 1;
          case Some(rep) =>
            var res := SaveTlsReport(rep);
            if res.SaveFailed? {
              assert reports[..|reports|] == reports;
              return false, stored, parseErrs, n;
            }
            stored := stored + 1;
        }
        n := n + 1;
      }
      ok := true;
    }

    method StoreForensic(ghost docs: seq<Doc>, ghost base: nat, reps: seq<Option<ForensicReport>>, ghost was: Before)
      returns (ok: bool, stored: nat, parseErrs: nat, ghost n: nat)
      requires base + |reps| <= |docs| && forall i :: 0 <= i < |reps| ==> docs[base + i] == Doc.Forensic(reps[i])
      requires Valid() && PassedTo(docs, base, was)
      modifies this`forensic, this`forensicIds, this`nextForensic, this`calls
      ensures Valid() && old(calls) <= calls
      ensures ok ==> n == base + |reps| && PassedTo(docs, n, was) && Counted(docs, base, n, stored, parseErrs)
      ensures !ok ==> n < base + |reps| && old(calls) < calls && Stopped(docs, n, was)
    {
      hide SaveAll, SaveAllTls, SaveAllForensic, CountParsed, DistinctRows, IdsOk;
      stored, parseErrs, n := 0, 0, base;
      for i := 0 to |reps|
        invariant Valid() && n == base + i && old(calls) <= calls
        invariant Counted(docs, base, n, stored, parseErrs) && PassedTo(docs, n, was)
      {
        assert docs[base + i] == Doc.Forensic(reps[i]);
        PassStep(docs, n, Table(was.rows), was.tls, was.forensic);
        match reps[i] {
          case None => parseErrs := parseErrs + 1;
          case Some(rep) =>
            var res := SaveForensic(rep);
            if res.SaveFailed? {
              assert reports[..|reports|] == reports;
              return false, stored, parseErrs, n;
            }
            stored := stored + 1;
        }
        n := n + 1;
      }
      ok := true;
    }

    /** None: a store call failed and the mail is to be retried. */
    method ProcessMail(body: Body) returns (outcome: Option<Folder>, ghost passed: nat)
      requires Valid()
      modifies this
      ensures Valid() && old(calls) <= calls
      ensures var was := Before(old(reports), old(tls), old(forensic), old(emitted));
        match outcome
        case Some(f) => f == Verdict(body) && passed == |Docs(body)| && PassedTo(Docs(body), passed, was)
        case None => passed < |Docs(body)| && old(calls) < calls && Stopped(Docs(body), passed, was)
    {
      passed := 0;
      EmptyMails(body);
      ghost var was := Before(reports, tls, forensic, emitted);
      assert PassedTo(Docs(body), 0, was);
      hide PassedTo, Stopped, Docs, Verdict, DistinctRows, IdsOk;
      if !body.Payloads? {
        return Some(Failed), passed;
      }
      if body.aggregates == [] && body.tls == [] && body.forensic == [] {
        return Some(Ignored), passed;
      }
      outcome, passed := ProcessDocs(body, Docs(body), was);
    }

    /** processMail's loops and its last decision. */
    method ProcessDocs(body: Body, ghost docs: seq<Doc>, ghost was: Before)
      returns (outcome: Option<Folder>, ghost passed: nat)
      requires Valid() && body.Payloads? && docs == Docs(body) && docs != [] && PassedTo(docs, 0, was)
      modifies this
      ensures Valid() && old(calls) <= calls
      ensures match outcome
        case Some(f) => f == Verdict(body) && passed == |docs| && PassedTo(docs, passed, was)
        case None => passed < |docs| && old(calls) < calls && Stopped(docs, passed, was)
    {
      hide PassedTo, Stopped, CountParsed, Verdict, DistinctRows, IdsOk;
      ghost var na, nt := |body.aggregates|, |body.tls|;
      var ok, s1, p1, s2, p2, s3, p3;
      ok, s1, p1, passed := StoreAggregates(docs, body.aggregates, was);
      if !ok {
        return None, passed;
      }
      ok, s2, p2, passed := StoreTls(docs, na, body.tls, was);
      if !ok {
        return None, passed;
      }
      ok, s3, p3, passed := StoreForensic(docs, na + nt, body.forensic, was);
      if !ok {
        return None, passed;
      }
      var stored, parseErrs := s1 + s2 + s3, p1 + p2 + p3;
      CountVerdict(body, docs);
      outcome := Some(if stored == 0 && parseErrs > 0 then Failed else Processed);
    }

    /** One cycle over the fetched mails: every mail whose processing did not hit a
        failing call is put on the list of the folder it belongs to, and everything
        in it that parses is stored; the others are on no list. */
    method Cycle(msgs: seq<(MailId, Body)>) returns (moves: Filing, ghost retried: set<MailId>)
      requires Valid()
      requires forall i, j :: 0 <= i < j < |msgs| ==> msgs[i].0 != msgs[j].0
      modifies this
      ensures Valid() && Grown(old(View(reports, tls, forensic)), View(reports, tls, forensic))
      ensures Sorted(msgs, |msgs|, moves, retried)
      ensures retried != {} ==> exists k :: old(calls) <= k < calls && fault(k).Some?
      ensures MailsStored(msgs, |msgs|, retried, View(reports, tls, forensic))
    {
      moves, retried := NOTHING, {};
      for i := 0 to |msgs|
        invariant Valid() && Grown(old(View(reports, tls, forensic)), View(reports, tls, forensic))
            && old(calls) <= calls
        invariant Sorted(msgs, i, moves, retried)
        invariant retried != {} ==> exists k :: old(calls) <= k < calls && fault(k).Some?
        invariant MailsStored(msgs, i, retried, View(reports, tls, forensic))
      {
        var (m, body) := msgs[i];
        ghost var was := Before(reports, tls, forensic, emitted);
        var outcome;
        ghost var passed;
        outcome, passed := ProcessMail(body);
        ghost var through := if outcome.Some? || fault(calls - 1) != Some(Unanswered) then passed else passed + 1;
        assert TablesAt(Docs(body), through, was);
        PassGrows(View(was.rows, was.tls, was.forensic), View(reports, tls, forensic), Docs(body), through);
        SortedStep(msgs, i, moves, retried, outcome);
        MailsStoredStep(msgs, i, retried, View(was.rows, was.tls, was.forensic), View(reports, tls, forensic), outcome);
        match outcome {
          case None => retried := retried + {m};
          case Some(f) => moves := moves.Add(f, m);
        }
      }
    }

    /** The ingest endpoint: documents are saved and emitted one by one; the first
        that does not parse answers 400, the first failing save 500, and what was
        saved before stays. Each result names the row that holds its report and says
        whether it was there. */
    method Ingest(reps: seq<Option<Report>>) returns (status: Status, results: seq<SaveResult>)
      requires Valid()
      modifies this`reports, this`nextSerial, this`calls, this`emitted
      ensures Valid() && |results| <= |reps| && old(calls) <= calls
      ensures AllAnswered(results, reps, Aggregates(reps), Table(old(reports)), reports)
      ensures status == BadRequest <==> |reps| == 0 || (|results| < |reps| && reps[|results|].None?)
      ensures status == Created || status == AllDuplicate ==> |results| == |reps| > 0
      ensures status == Created ==> reports != old(reports)
      ensures status == AllDuplicate ==> reports == old(reports)
      ensures var was := Before(old(reports), old(tls), old(forensic), old(emitted));
        if status == ServerError
        then |results| < |reps| && old(calls) < calls && Stopped(Aggregates(reps), |results|, was)
        else PassedTo(Aggregates(reps), |results|, was)
    {
      results := [];
      ghost var was := Before(reports, tls, forensic, emitted);
      assert PassedTo(Aggregates(reps), 0, was);
      assert AllAnswered(results, reps, Aggregates(reps), Table(was.rows), reports);
      if |reps| == 0 {
        return BadRequest, results;
      }
      ghost var docs := Aggregates(reps);
      var anyNew := false;
      hide SaveAll, SaveAllTls, SaveAllForensic, IdsOk, DistinctRows, Answers, AllAnswered, Stopped, Lookup;
      for i := 0 to |reps|
        invariant Valid() && old(calls) <= calls && |results| == i && PassedTo(docs, i, was)
        invariant AllAnswered(results, reps, docs, Table(was.rows), reports)
        invariant anyNew <==> reports != old(reports)
      {
        if reps[i].None? {
          return BadRequest, results;
        }
        ghost var rows := reports;
        var res := SaveAndEmit(reps[i].value, docs, i, was);
        if res.SaveFailed? {
          AnswersStay(results, reps, docs, Table(was.rows), rows, reports);
          return ServerError, results;
        }
        AnswersStay(results, reps, docs, Table(was.rows), rows, reports);
        AnswersAppend(results, res, reps, docs, Table(was.rows), reports);
        results := results + [res];
        if !res.duplicate {
          anyNew := true;
        }
      }
      status := if anyNew then Created else AllDuplicate;
    }
  }

  // --- small change ---

  predicate IdsOk(ids: seq<int>, n: nat, next: int) {
    && |ids| == n && 0 < next
    && (forall i :: 0 <= i < n ==> 0 < ids[i] < next)
    && (forall i, j :: 0 <= i < j < n ==> ids[i] != ids[j])
  }

  predicate SameTls(a: TlsReport, b: TlsReport) { a.org == b.org && a.reportId == b.reportId }

  /** The row with r's key, |tls| if there is none. */
  method FindTls(tls: seq<TlsReport>, r: TlsReport) returns (i: nat)
    ensures i <= |tls| && (i < |tls| ==> SameTls(tls[i], r))
    ensures i == |tls| <==> !HasTls(tls, r)
  {
    i := 0;
    while i < |tls| && !SameTls(tls[i], r)
      invariant i <= |tls| && forall k :: 0 <= k < i ==> !SameTls(tls[k], r)
    {
      i := i + 1;
    }
  }

  predicate Counted(docs: seq<Doc>, base: nat, n: nat, stored: int, parseErrs: int)
    requires base <= |docs| && n <= |docs|
  {
    stored == CountParsed(docs, n) - CountParsed(docs, base) && parseErrs == n - base - stored
  }

  function Aggregates(reps: seq<Option<Report>>): seq<Doc> {
    seq(|reps|, i requires 0 <= i < |reps| => Aggregate(reps[i]))
  }

  // --- answers ---

  /** The answer to a save of rep when the table was `before`, seen in a later table:
      the serial is that of the row with its key, the duplicate flag says whether
      there was one, and a new row is rep itself. */
  ghost predicate Answers(res: SaveResult, rep: Report, before: seq<Report>, rows: seq<Row>) {
    && res.Saved? && Lookup(rows, rep.key).Some?
    && Lookup(rows, rep.key).value.serial == res.serial
    && (res.duplicate <==> Holds(before, rep.key))
    && (!res.duplicate ==> Lookup(rows, rep.key).value.report == rep
                           && res.records == |rep.records| && res.messages == SumIf(rep.records, Every))
  }

  ghost predicate AllAnswered(results: seq<SaveResult>, reps: seq<Option<Report>>, docs: seq<Doc>, table: seq<Report>,
      rows: seq<Row>) {
    && |results| <= |reps| == |docs|
    && forall i :: 0 <= i < |results| ==>
        reps[i].Some? && Answers(results[i], reps[i].value, SaveAll(table, docs, i), rows)
  }

  /** A row that was found is found in every longer table. */
  lemma LookupStays(rows: seq<Row>, rows': seq<Row>, k: Key)
    requires rows <= rows' && DistinctRows(rows') && Lookup(rows, k).Some?
    ensures Lookup(rows', k) == Lookup(rows, k)
  {
    var i := LookupAt(rows, k);
    assert rows'[i] == rows[i];
    LookupIs(rows', i);
  }

  lemma {:induction false} LookupAt(rows: seq<Row>, k: Key) returns (i: nat)
    requires Lookup(rows, k).Some?
    ensures i < |rows| && rows[i].report.key == k && Lookup(rows, k) == Some(rows[i])
  {
    if rows[|rows| - 1].report.key == k {
      i := |rows| - 1;
    } else {
      i := LookupAt(rows[..|rows| - 1], k);
    }
  }

  lemma AnswersStay(results: seq<SaveResult>, reps: seq<Option<Report>>, docs: seq<Doc>, table: seq<Report>,
      rows: seq<Row>, rows': seq<Row>)
    requires AllAnswered(results, reps, docs, table, rows) && rows <= rows' && DistinctRows(rows')
    ensures AllAnswered(results, reps, docs, table, rows')
  {
    forall i | 0 <= i < |results| ensures Answers(results[i], reps[i].value, SaveAll(table, docs, i), rows') {
      LookupStays(rows, rows', reps[i].value.key);
    }
  }

  lemma AnswersAppend(results: seq<SaveResult>, res: SaveResult, reps: seq<Option<Report>>, docs: seq<Doc>,
      table: seq<Report>, rows: seq<Row>)
    requires AllAnswered(results, reps, docs, table, rows) && |results| < |reps| && reps[|results|].Some?
    requires Answers(res, reps[|results|].value, SaveAll(table, docs, |results|), rows)
    ensures AllAnswered(results + [res], reps, docs, table, rows)
  {
  }

  lemma SavedTable(rows: seq<Row>, rows': seq<Row>, rep: Report, docs: seq<Doc>, n: nat, table: seq<Report>)
    requires n < |docs| && docs[n] == Aggregate(Some(rep)) && Table(rows) == SaveAll(table, docs, n)
    ensures HasKey(rows, rep.key) && rows' == rows ==> Table(rows') == SaveAll(table, docs, n + 1)
    ensures !HasKey(rows, rep.key) && Appended(rows, rows', rep) ==> Table(rows') == SaveAll(table, docs, n + 1)
  {
    TableHolds(rows, rep.key);
    if Appended(rows, rows', rep) {
      assert Table(rows') == Table(rows) + [rep];
    }
  }

  // --- the move lists ---

  /** One of the first n messages is m, and it belongs in folder f. */
  ghost predicate Belongs(msgs: seq<(MailId, Body)>, n: nat, f: Folder, m: MailId)
    requires n <= |msgs|
  {
    exists k :: 0 <= k < n && msgs[k].0 == m && Verdict(msgs[k].1) == f
  }

  /** The move lists of the first n messages: each message that was not left for
      a retry is on the list of its folder, and nothing else is on a list. */
  ghost predicate Sorted(msgs: seq<(MailId, Body)>, n: nat, moves: Filing, retried: set<MailId>)
    requires n <= |msgs|
  {
    && (forall m :: m in retried ==> exists k :: 0 <= k < n && msgs[k].0 == m)
    && (forall f, m :: m in moves.Get(f) <==> m !in retried && Belongs(msgs, n, f, m))
  }

  lemma SortedStep(msgs: seq<(MailId, Body)>, n: nat, moves: Filing, retried: set<MailId>, outcome: Option<Folder>)
    requires n < |msgs| && Sorted(msgs, n, moves, retried)
    requires forall i, j :: 0 <= i < j < |msgs| ==> msgs[i].0 != msgs[j].0
    requires outcome.Some? ==> outcome.value == Verdict(msgs[n].1)
    ensures match outcome
      case None => Sorted(msgs, n + 1, moves, retried + {msgs[n].0})
      case Some(f) => Sorted(msgs, n + 1, moves.Add(f, msgs[n].0), retried)
  {
    var m := msgs[n].0;
    assert m !in retried && forall f :: !Belongs(msgs, n, f, m);
    forall f, k ensures Belongs(msgs, n + 1, f, k) <==> Belongs(msgs, n, f, k) || (k == m && f == Verdict(msgs[n].1)) {
      if Belongs(msgs, n, f, k) {
        var i :| 0 <= i < n && msgs[i].0 == k && Verdict(msgs[i].1) == f;
        assert 0 <= i < n + 1;
      }
    }
    forall x | x in retried ensures exists k :: 0 <= k < n + 1 && msgs[k].0 == x {
      var k :| 0 <= k < n && msgs[k].0 == x;
      assert 0 <= k < n + 1;
    }
    if outcome.Some? {
      var f := outcome.value;
      forall g, k ensures k in moves.Add(f, m).Get(g) <==> k !in retried && Belongs(msgs, n + 1, g, k) {
        assert moves.Add(f, m).Get(g) == moves.Get(g) + if f == g then {m} else {};
        assert Belongs(msgs, n + 1, g, k) <==> Belongs(msgs, n, g, k) || (k == m && g == Verdict(msgs[n].1));
      }
    }
  }

  lemma EmptyMails(body: Body)
    ensures !body.Payloads? ==> Docs(body) == [] && Verdict(body) == Failed
    ensures body.Payloads? && body.aggregates == [] && body.tls == [] && body.forensic == [] ==>
      Docs(body) == [] && Verdict(body) == Ignored
    ensures body.Payloads? && !(body.aggregates == [] && body.tls == [] && body.forensic == []) ==> Docs(body) != []
  {
    if body.Payloads? { assert |Docs(body)| == |body.aggregates| + |body.tls| + |body.forensic|; }
  }

  lemma CountVerdict(body: Body, docs: seq<Doc>)
    requires body.Payloads? && docs == Docs(body) && docs != []
    ensures Verdict(body) == if CountParsed(docs, |docs|) == 0 then Failed else Processed
    ensures CountParsed(docs, 0) == 0
  {
    CountZero(docs, |docs|);
  }

  // --- what filed mails leave in the tables ---

  ghost predicate Grown(db: Db, db': Db) {
    db.reports <= db'.reports && db.tls <= db'.tls && db.forensic <= db'.forensic
  }

  /** Everything that parses in one of the first n messages that was not left for a
      retry is stored: reports of all three kinds. */
  ghost predicate MailsStored(msgs: seq<(MailId, Body)>, n: nat, retried: set<MailId>, db: Db)
    requires n <= |msgs|
  {
    forall k :: 0 <= k < n && msgs[k].0 !in retried ==> AllStored(db, Docs(msgs[k].1))
  }

  lemma AllStoredGrows(db: Db, db': Db, docs: seq<Doc>)
    requires Grown(db, db') && AllStored(db, docs)
    ensures AllStored(db', docs)
  {
    forall j | 0 <= j < |docs| && docs[j].Parses() ensures Stored(db', docs[j]) { StoredGrows(db, db', docs[j]); }
  }

  lemma {:induction false} PassedHolds(tls: seq<TlsReport>, forensic: seq<ForensicReport>, docs: seq<Doc>, n: nat,
      j: nat)
    requires j < n <= |docs| && docs[j].Parses()
    ensures tls <= SaveAllTls(tls, docs, n) && forensic <= SaveAllForensic(forensic, docs, n)
    ensures docs[j].Tls? ==> HasTls(SaveAllTls(tls, docs, n), docs[j].tls.value)
    ensures docs[j].Forensic? ==> docs[j].ruf.value in SaveAllForensic(forensic, docs, n)
  {
    OthersGrow(tls, forensic, docs, n);
    PassStep(docs, n - 1, [], tls, forensic);
    hide SaveAllTls, SaveAllForensic;
    var t := SaveAllTls(tls, docs, n - 1);
    if j < n - 1 {
      PassedHolds(tls, forensic, docs, n - 1, j);
      if docs[j].Tls? { HasTlsGrows(t, SaveAllTls(tls, docs, n), docs[j].tls.value); }
    } else if docs[j].Tls? {
      var r := docs[j].tls.value;
      if !HasTls(t, r) { assert (t + [r])[|t|] == r; }
    }
  }

  lemma HasTlsGrows(tls: seq<TlsReport>, tls': seq<TlsReport>, r: TlsReport)
    requires tls <= tls' && HasTls(tls, r)
    ensures HasTls(tls', r)
  {
    var i :| 0 <= i < |tls| && tls[i].org == r.org && tls[i].reportId == r.reportId;
    assert tls'[i] == tls[i];
  }

  lemma {:induction false} OthersGrow(tls: seq<TlsReport>, forensic: seq<ForensicReport>, docs: seq<Doc>, n: nat)
    requires n <= |docs|
    ensures tls <= SaveAllTls(tls, docs, n) && forensic <= SaveAllForensic(forensic, docs, n)
  {
    if n == 0 {
    } else {
      OthersGrow(tls, forensic, docs, n - 1);
    }
  }

  /** A pass over the first n documents leaves them stored. */
  lemma PassGrows(db: Db, db': Db, docs: seq<Doc>, n: nat)
    requires n <= |docs| && db.reports <= db'.reports
    requires Table(db'.reports) == SaveAll(Table(db.reports), docs, n)
    requires db'.tls == SaveAllTls(db.tls, docs, n) && db'.forensic == SaveAllForensic(db.forensic, docs, n)
    ensures Grown(db, db')
    ensures n == |docs| ==> AllStored(db', docs)
  {
    OthersGrow(db.tls, db.forensic, docs, n);
    if n == |docs| {
      forall j | 0 <= j < |docs| && docs[j].Parses() ensures Stored(db', docs[j]) {
        PassedHolds(db.tls, db.forensic, docs, n, j);
        if docs[j].Aggregate? {
          SaveAllHolds(Table(db.reports), docs, n, j);
          TableHolds(db'.reports, docs[j].rep.value.key);
        }
      }
    }
  }

  lemma MailsStoredStep(msgs: seq<(MailId, Body)>, n: nat, retried: set<MailId>, db: Db, db': Db,
      outcome: Option<Folder>)
    requires n < |msgs| && MailsStored(msgs, n, retried, db) && Grown(db, db')
    requires outcome.Some? ==> AllStored(db', Docs(msgs[n].1))
    ensures MailsStored(msgs, n + 1, if outcome.Some? then retried else retried + {msgs[n].0}, db')
  {
    forall k | 0 <= k < n && msgs[k].0 !in retried ensures AllStored(db', Docs(msgs[k].1)) {
      AllStoredGrows(db, db', Docs(msgs[k].1));
    }
  }

  lemma {:induction false} LookupFinds(rows: seq<Row>, k: Key)
    ensures Lookup(rows, k).Some? <==> HasKey(rows, k)
  {
    if rows == [] {
    } else {
      var n := |rows| - 1;
      LookupFinds(rows[..n], k);
      if HasKey(rows, k) && rows[n].report.key != k {
        var i :| 0 <= i < |rows| && rows[i].report.key == k;
        assert rows[..n][i].report.key == k;
      }
    }
  }
}
