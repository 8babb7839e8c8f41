/** dmarc_agg_daily: maintained one report at a time by the rollup observer and
    rebuilt from report/rptrecord by one GROUP BY
    (parser/internal/rollup/rollup.go). */
module Rollup {
  import opened Ledger
  import opened Reports

  const SECONDS_PER_DAY := 86400

  /** begin truncated to its UTC day. */
  function BucketOf(rep: Report): Bucket {
    Bucket(rep.begin / SECONDS_PER_DAY, rep.key.domain)
  }

  // The FILTER clauses of the rebuild.

  predicate Every(rec: Record) { true }
  predicate DkimPass(rec: Record) { rec.dkimAlign == Pass }
  predicate SpfPass(rec: Record) { rec.spfAlign == Pass }
  predicate WasNone(rec: Record) { rec.disposition == Some(NoAction) }
  predicate WasQuarantine(rec: Record) { rec.disposition == Some(Quarantine) }
  predicate WasReject(rec: Record) { rec.disposition == Some(Reject) }

  /** COALESCE(SUM(rcount) FILTER (WHERE p), 0). */
  function SumIf(recs: seq<Record>, p: Record -> bool): int {
    if recs == [] then 0
    else
      var last := recs[|recs| - 1];
      SumIf(recs[..|recs| - 1], p) + if p(last) then last.count else 0
  }

  /** What one select row of the rebuild computes for a group of joined records. */
  function Select(recs: seq<Record>, reports: int): Counts {
    Counts(SumIf(recs, Every), SumIf(recs, Aligned), SumIf(recs, DkimPass), SumIf(recs, SpfPass),
           SumIf(recs, WasNone), SumIf(recs, WasQuarantine), SumIf(recs, WasReject), reports)
  }

  /** What the observer adds to the bucket for one new report. */
  function Contribution(rep: Report): Counts {
    Select(rep.records, 1)
  }

  function EntryOf(row: Row): Entry {
    Entry(BucketOf(row.report), Contribution(row.report))
  }

  function Entries(rows: seq<Row>): (es: seq<Entry>)
    ensures |es| == |rows|
  {
    seq(|rows|, i requires 0 <= i < |rows| => EntryOf(rows[i]))
  }

  // The rebuild, read off the SQL: group the reports by bucket, join their
  // records, sum with filters, count distinct serials.

  function Buckets(rows: seq<Row>): set<Bucket> {
    set i | 0 <= i < |rows| :: BucketOf(rows[i].report)
  }

  function GroupRecords(rows: seq<Row>, b: Bucket): seq<Record> {
    if rows == [] then []
    else
      var last := rows[|rows| - 1].report;
      GroupRecords(rows[..|rows| - 1], b) + if BucketOf(last) == b then last.records else []
  }

  function GroupSerials(rows: seq<Row>, b: Bucket): set<int> {
    set i | 0 <= i < |rows| && BucketOf(rows[i].report) == b :: rows[i].serial
  }

  /** One output row: COUNT(DISTINCT serial) and the sums over the join. */
  function Group(rows: seq<Row>, b: Bucket): Counts {
    Select(GroupRecords(rows, b), |GroupSerials(rows, b)|)
  }

  function Rebuild(rows: seq<Row>): map<Bucket, Counts> {
    map b | b in Buckets(rows) :: Group(rows, b)
  }

  // What the columns and the buckets mean.

  /** b is the report's domain on the UTC day it begins. */
  predicate OnDay(rep: Report, b: Bucket) {
    b.domain == rep.key.domain && 86400 * b.day <= rep.begin < 86400 * (b.day + 1)
  }

  lemma BucketIff(rep: Report, b: Bucket)
    ensures BucketOf(rep) == b <==> OnDay(rep, b)
  {
  }

  /** A report with one record adds its count to the total and to exactly the columns
      its alignment results and its disposition name. */
  lemma OneRecord(rep: Report, rec: Record)
    requires rep.records == [rec]
    ensures var c := Contribution(rep);
      && c.total == rec.count && c.reports == 1
      && c.aligned == (if rec.dkimAlign == Pass || rec.spfAlign == Pass then rec.count else 0)
      && c.dkim == (if rec.dkimAlign == Pass then rec.count else 0)
      && c.spf == (if rec.spfAlign == Pass then rec.count else 0)
      && c.none == (if rec.disposition == Some(NoAction) then rec.count else 0)
      && c.quarantine == (if rec.disposition == Some(Quarantine) then rec.count else 0)
      && c.reject == (if rec.disposition == Some(Reject) then rec.count else 0)
  {
    var recs := rep.records;
    assert recs[..0] == [];
    assert forall p :: SumIf(recs, p) == SumIf(recs[..0], p) + if p(rec) then rec.count else 0;
  }

  /** Column by column, records of one report add up, and none add nothing. */
  lemma RecordsAddUp(rep: Report, a: seq<Record>, b: seq<Record>)
    requires rep.records == a + b
    ensures var c, x, y := Contribution(rep), Contribution(rep.(records := a)), Contribution(rep.(records := b));
      && c.total == x.total + y.total && c.aligned == x.aligned + y.aligned
      && c.dkim == x.dkim + y.dkim && c.spf == x.spf + y.spf
      && c.none == x.none + y.none && c.quarantine == x.quarantine + y.quarantine && c.reject == x.reject + y.reject
      && c.reports == 1
    ensures rep.records == [] ==> Contribution(rep) == Counts(0, 0, 0, 0, 0, 0, 0, 1)
  {
    SumIfConcat(a, b, Every);
    SumIfConcat(a, b, Aligned);
    SumIfConcat(a, b, DkimPass);
    SumIfConcat(a, b, SpfPass);
    SumIfConcat(a, b, WasNone);
    SumIfConcat(a, b, WasQuarantine);
    SumIfConcat(a, b, WasReject);
    SelectNone();
    hide SumIf;
  }

  lemma SelectNone()
    ensures Select([], 1) == Counts(0, 0, 0, 0, 0, 0, 0, 1)
  {
  }

  class DailyTable {
    var daily: map<Bucket, Counts>

    constructor ()
      ensures daily == map[]
    {
      daily := map[];
    }

    /** The pipeline observer. A failed upsert is logged and forgotten. */
    method OnIngest(rep: Report, upsertOk: bool)
      modifies this
      ensures daily == if upsertOk then Upsert(old(daily), BucketOf(rep), Contribution(rep)) else old(daily)
      ensures forall b ::
        var was := At(old(daily), b);
        At(daily, b) == if upsertOk && OnDay(rep, b) then Plus(was, Contribution(rep)) else was
    {
      var total, aligned, dkim, spf, none, quarantine, reject := 0, 0, 0, 0, 0, 0, 0;
      var recs := rep.records;
      for i := 0 to |recs|
        invariant total == SumIf(recs[..i], Every)
        invariant aligned == SumIf(recs[..i], Aligned)
        invariant dkim == SumIf(recs[..i], DkimPass)
        invariant spf == SumIf(recs[..i], SpfPass)
        invariant none == SumIf(recs[..i], WasNone)
        invariant quarantine == SumIf(recs[..i], WasQuarantine)
        invariant reject == SumIf(recs[..i], WasReject)
        invariant daily == old(daily)
      {
        var rec := recs[i];
        assert recs[..i + 1][..i] == recs[..i];
        total := total + rec.count;
        var dkimPass, spfPass := rec.dkimAlign == Pass, rec.spfAlign == Pass;
        if dkimPass { dkim := dkim + rec.count; }
        if spfPass { spf := spf + rec.count; }
        if dkimPass || spfPass { aligned := aligned + rec.count; }
        match rec.disposition {
          case Some(NoAction) => none := none + rec.count;
          case Some(Quarantine) => quarantine := quarantine + rec.count;
          case Some(Reject) => reject := reject + rec.count;
          case _ =>
        }
      }
      assert recs[..|recs|] == recs;
      if upsertOk {
        var b := BucketOf(rep);
        var c := Counts(total, aligned, dkim, spf, none, quarantine, reject, 1);
        PlusZero(c);
        daily := daily[b := if b in daily then Plus(daily[b], c) else c];
      }
      forall b ensures BucketOf(rep) == b <==> OnDay(rep, b) { BucketIff(rep, b); }
    }

    /** DELETE, INSERT … SELECT and COMMIT: a failure before the commit takes effect
        leaves the table as it was, and the caller hears of the new one only if the
        commit is acknowledged. */
    method Backfill(rows: seq<Row>, deleteOk: bool, insertOk: bool, commit: Commit) returns (written: Option<nat>)
      modifies this
      ensures daily == if deleteOk && insertOk && !commit.NotApplied? then Rebuild(rows) else old(daily)
      ensures written == if deleteOk && insertOk && commit.Applied? then Some(|Rebuild(rows)|) else None
    {
      var work := daily;
      if !deleteOk {
        return None;
      }
      work := map[];
      if !insertOk {
        return None;
      }
      var selected := Rebuild(rows);
      work := work + selected;
      if !commit.NotApplied? {
        daily := work;
      }
      assert work == selected;
      return if commit.Applied? then Some(|selected|) else None;
    }
  }

  lemma {:induction false} SumIfConcat(a: seq<Record>, b: seq<Record>, p: Record -> bool)
    ensures SumIf(a + b, p) == SumIf(a, p) + SumIf(b, p)
  {
    if b == [] {
      assert a + b == a;
    } else {
      var n := |b| - 1;
      SumIfConcat(a, b[..n], p);
      assert (a + b)[..|a + b| - 1] == a + b[..n];
    }
  }

  lemma SelectConcat(a: seq<Record>, b: seq<Record>, m: int, n: int)
    ensures Select(a + b, m + n) == Plus(Select(a, m), Select(b, n))
  {
    SumIfConcat(a, b, Every);
    SumIfConcat(a, b, Aligned);
    SumIfConcat(a, b, DkimPass);
    SumIfConcat(a, b, SpfPass);
    SumIfConcat(a, b, WasNone);
    SumIfConcat(a, b, WasQuarantine);
    SumIfConcat(a, b, WasReject);
  }

  lemma GroupSerialsStep(rows: seq<Row>, b: Bucket)
    requires DistinctRows(rows) && rows != []
    ensures var n := |rows| - 1;
      GroupSerials(rows, b)
        == GroupSerials(rows[..n], b) + (if BucketOf(rows[n].report) == b then {rows[n].serial} else {})
    ensures rows[|rows| - 1].serial !in GroupSerials(rows[..|rows| - 1], b)
  {
  }

  /** The records and the serials of a bucket when its last report is in it … */
  lemma GroupInside(rows: seq<Row>, b: Bucket)
    requires DistinctRows(rows) && rows != [] && BucketOf(rows[|rows| - 1].report) == b
    ensures var n := |rows| - 1;
      Group(rows, b) == Plus(Group(rows[..n], b), Contribution(rows[n].report))
  {
    var n := |rows| - 1;
    GroupSerialsStep(rows, b);
    assert GroupRecords(rows, b) == GroupRecords(rows[..n], b) + rows[n].report.records;
    hide GroupRecords, GroupSerials, SumIf, DistinctRows;
    SelectConcat(GroupRecords(rows[..n], b), rows[n].report.records, |GroupSerials(rows[..n], b)|, 1);
    hide Select, Plus;
  }

  /** … and when it is not. */
  lemma GroupOutside(rows: seq<Row>, b: Bucket)
    requires DistinctRows(rows) && rows != [] && BucketOf(rows[|rows| - 1].report) != b
    ensures Group(rows, b) == Group(rows[..|rows| - 1], b)
  {
    var n := |rows| - 1;
    GroupSerialsStep(rows, b);
    assert GroupRecords(rows, b) == GroupRecords(rows[..n], b);
    assert GroupSerials(rows, b) == GroupSerials(rows[..n], b);
    hide GroupRecords, GroupSerials, Select, DistinctRows;
  }

  lemma GroupStep(rows: seq<Row>, b: Bucket)
    requires DistinctRows(rows) && rows != []
    ensures var n := |rows| - 1;
      Group(rows, b) == Plus(Group(rows[..n], b), Share(EntryOf(rows[n]), 1, b))
  {
    var n := |rows| - 1;
    hide Group, Contribution, Plus, DistinctRows;
    PlusZero(Contribution(rows[n].report));
    PlusZero(Group(rows[..n], b));
    if BucketOf(rows[n].report) == b {
      GroupInside(rows, b);
    } else {
      GroupOutside(rows, b);
    }
  }

  lemma EntriesFront(rows: seq<Row>, b: Bucket)
    requires rows != []
    ensures var n := |rows| - 1;
      Weighted(Entries(rows), Ones(n + 1), b)
        == Plus(Weighted(Entries(rows[..n]), Ones(n), b), Share(EntryOf(rows[n]), 1, b))
  {
    var n := |rows| - 1;
    SumAgrees(Entries(rows), Ones(n + 1), Entries(rows[..n]), Ones(n), n, b);
    assert Entries(rows)[n] == EntryOf(rows[n]) && Ones(n + 1)[n] == 1;
  }

  lemma GroupOfNone(b: Bucket)
    ensures Group([], b) == ZERO == Weighted(Entries([]), Ones(0), b)
  {
    assert GroupSerials([], b) == {};
    assert GroupRecords([], b) == [];
  }

  /** One group of the rebuild is the sum of its reports' contributions. The
      distinct-serial count needs the primary key. */
  lemma {:induction false} GroupIsSum(rows: seq<Row>, b: Bucket)
    requires DistinctRows(rows)
    ensures Group(rows, b) == Weighted(Entries(rows), Ones(|rows|), b)
  {
    hide Group, Weighted, Entries, Share, Plus, EntryOf, Ones;
    if rows == [] {
      GroupOfNone(b);
    } else {
      var n := |rows| - 1;
      FrontDistinct(rows);
      hide DistinctRows;
      GroupIsSum(rows[..n], b);
      GroupStep(rows, b);
      EntriesFront(rows, b);
      assert Group(rows, b) == Plus(Weighted(Entries(rows[..n]), Ones(n), b), Share(EntryOf(rows[n]), 1, b));
    }
  }

  lemma FrontDistinct(rows: seq<Row>)
    requires DistinctRows(rows) && rows != []
    ensures DistinctRows(rows[..|rows| - 1])
  {
  }

  lemma BucketsAreTouched(rows: seq<Row>, b: Bucket)
    ensures b in Buckets(rows) <==> Touched(Entries(rows), Ones(|rows|), b)
  {
    if b in Buckets(rows) {
      var i :| 0 <= i < |rows| && BucketOf(rows[i].report) == b;
      assert Entries(rows)[i].bucket == b && 0 < Ones(|rows|)[i];
    }
  }

  lemma EmptyGroup(rows: seq<Row>, b: Bucket)
    requires b !in Buckets(rows)
    ensures Group(rows, b) == ZERO
  {
    assert GroupSerials(rows, b) == {};
    EmptyGroupRecords(rows, b);
  }

  lemma {:induction false} EmptyGroupRecords(rows: seq<Row>, b: Bucket)
    requires b !in Buckets(rows)
    ensures GroupRecords(rows, b) == []
  {
    if rows == [] {
    } else {
      var n := |rows| - 1;
      assert BucketOf(rows[n].report) in Buckets(rows);
      assert forall i :: 0 <= i < n ==> rows[..n][i] == rows[i];
      assert b !in Buckets(rows[..n]);
      EmptyGroupRecords(rows[..n], b);
    }
  }

  /** The rebuild counts every stored report exactly once: one GROUP BY is the
      sum of the contributions the observer would have added. */
  lemma RebuildCountsEachOnce(rows: seq<Row>)
    requires DistinctRows(rows)
    ensures Counted(Rebuild(rows), Entries(rows), Ones(|rows|))
  {
    forall b
      ensures At(Rebuild(rows), b) == Weighted(Entries(rows), Ones(|rows|), b)
      ensures b in Rebuild(rows) <==> Touched(Entries(rows), Ones(|rows|), b)
    {
      BucketsAreTouched(rows, b);
      GroupIsSum(rows, b);
      if b !in Buckets(rows) { EmptyGroup(rows, b); }
    }
  }

  /** Report by report: the rebuild adds each one's contribution to the bucket of its
      domain and day, to no other, and has a row for exactly those buckets. */
  lemma RebuildStep(rows: seq<Row>, b: Bucket)
    requires DistinctRows(rows)
    ensures rows == [] ==> Rebuild(rows) == map[]
    ensures rows != [] ==>
      var front, last := Rebuild(rows[..|rows| - 1]), rows[|rows| - 1].report;
      && (b in Rebuild(rows) <==> b in front || OnDay(last, b))
      && At(Rebuild(rows), b) == if OnDay(last, b) then Plus(At(front, b), Contribution(last)) else At(front, b)
  {
    if rows != [] {
      var n := |rows| - 1;
      BucketIff(rows[n].report, b);
      BucketsStep(rows, b);
      if b !in Buckets(rows[..n]) { EmptyGroup(rows[..n], b); }
      hide Group, Contribution, Plus, Buckets, OnDay;
      if BucketOf(rows[n].report) == b { GroupInside(rows, b); } else { GroupOutside(rows, b); }
    }
  }

  lemma BucketsStep(rows: seq<Row>, b: Bucket)
    requires rows != []
    ensures b in Buckets(rows) <==> b in Buckets(rows[..|rows| - 1]) || BucketOf(rows[|rows| - 1].report) == b
  {
    var n := |rows| - 1;
    assert forall i :: 0 <= i < n ==> rows[..n][i] == rows[i];
    if b in Buckets(rows[..n]) {
      var i :| 0 <= i < n && BucketOf(rows[..n][i].report) == b;
      assert BucketOf(rows[i].report) == b;
    }
  }

  /** If nothing is counted twice, the maintained table is the rebuilt one
      exactly when nothing is missing. If nothing is missing, exactly when
      nothing is counted twice. */
  lemma ExactIffEachOnce(daily: map<Bucket, Counts>, rows: seq<Row>, w: seq<nat>)
    requires DistinctRows(rows) && |w| == |rows| && Counted(daily, Entries(rows), w)
    requires (forall i :: 0 <= i < |w| ==> w[i] <= 1) || (forall i :: 0 <= i < |w| ==> 1 <= w[i])
    ensures daily == Rebuild(rows) <==> w == Ones(|rows|)
  {
    RebuildCountsEachOnce(rows);
    if forall i :: 0 <= i < |w| ==> w[i] <= 1 {
      EqualIffSameWeights(daily, Rebuild(rows), Entries(rows), w, Ones(|rows|));
    } else {
      EqualIffSameWeights(Rebuild(rows), daily, Entries(rows), Ones(|rows|), w);
    }
  }

  lemma {:induction false} SelectSound(recs: seq<Record>, n: int)
    requires forall k :: 0 <= k < |recs| ==> 0 <= recs[k].count
    ensures Sound(Select(recs, n))
  {
    if recs == [] {
    } else {
      SelectSound(recs[..|recs| - 1], n);
    }
  }
}
