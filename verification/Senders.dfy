/** What the columns of domain_source are, in terms of the stored reports and their
    records. */
module Senders {
  import opened Reports
  import opened Addresses
  import opened Sources

  predicate From(rec: Record, ip: Addr) { RecordIP(Columns(rec.ip4, rec.ip6)) == Some(ip) }

  /** The messages of the first n records that came from ip; all of them, or those with
      DKIM or SPF aligned. */
  function Sent(recs: seq<Record>, n: nat, ip: Addr, alignedOnly: bool): int
    requires n <= |recs|
  {
    if n == 0 then 0
    else
      var rec := recs[n - 1];
      var counts := From(rec, ip) && (alignedOnly ==> rec.dkimAlign == Pass || rec.spfAlign == Pass);
      Sent(recs, n - 1, ip, alignedOnly) + if counts then rec.count else 0
  }

  /** And those of the first n reports about a domain. */
  function SentFor(rows: seq<Row>, n: nat, k: Pair, alignedOnly: bool): int
    requires n <= |rows|
  {
    if n == 0 then 0
    else
      var rep := rows[n - 1].report;
      SentFor(rows, n - 1, k, alignedOnly)
      + if rep.key.domain == k.domain then Sent(rep.records, |rep.records|, k.ip, alignedOnly) else 0
  }

  /** The report is about the pair's domain and has a record of its address. */
  ghost predicate Shows(row: Row, k: Pair) {
    row.report.key.domain == k.domain
    && exists p :: 0 <= p < |row.report.records| && From(row.report.records[p], k.ip)
  }

  /** Report i is one of the serials in (lo, hi] that show the pair. */
  ghost predicate ShownIn(rows: seq<Row>, i: int, lo: int, hi: int, k: Pair) {
    0 <= i < |rows| && lo < rows[i].serial <= hi && Shows(rows[i], k)
  }

  // --- one report ---

  lemma ObservedStep(row: Row, n: nat)
    requires 0 < n <= |row.report.records|
    ensures var rec, hits := row.report.records[n - 1], ObservedHits(row, n - 1);
      && (forall ip :: From(rec, ip) ==> ObservedHits(row, n) == hits + [HitOf(row, rec, ip)])
      && ((forall ip :: !From(rec, ip)) ==> ObservedHits(row, n) == hits)
  {
    var ip := RecordIP(Cols(row.report.records[n - 1]));
    if ip.Some? { assert From(row.report.records[n - 1], ip.value); }
  }

  lemma {:induction false} ReportSums(row: Row, n: nat, k: Pair)
    requires n <= |row.report.records|
    ensures Msgs(ObservedHits(row, n), k)
      == if row.report.key.domain == k.domain then Sent(row.report.records, n, k.ip, false) else 0
    ensures AlignedMsgs(ObservedHits(row, n), k)
      == if row.report.key.domain == k.domain then Sent(row.report.records, n, k.ip, true) else 0
  {
    if n == 0 {
    } else {
      var rec, hits := row.report.records[n - 1], ObservedHits(row, n - 1);
      ReportSums(row, n - 1, k);
      ObservedStep(row, n);
      if ip :| From(rec, ip) {
        hide ObservedHits;
        var h := HitOf(row, rec, ip);
        assert (hits + [h])[..|hits|] == hits;
        assert h.pair == k <==> row.report.key.domain == k.domain && From(rec, k.ip);
      }
    }
  }

  lemma {:induction false} HistorySums(rows: seq<Row>, n: nat, k: Pair)
    requires n <= |rows|
    ensures Msgs(Observation(rows[..n]), k) == SentFor(rows, n, k, false)
    ensures AlignedMsgs(Observation(rows[..n]), k) == SentFor(rows, n, k, true)
  {
    if n == 0 {
    } else {
      HistorySums(rows, n - 1, k);
      var last := rows[n - 1];
      ObservationStep(rows, n);
      hide Observation, ObservedHits, Msgs, AlignedMsgs, Sent;
      ReportSums(last, |last.report.records|, k);
      SumsConcat(Observation(rows[..n - 1]), ObservedHits(last, |last.report.records|), k);
    }
  }

  lemma ObservationStep(rows: seq<Row>, n: nat)
    requires 0 < n <= |rows|
    ensures var last := rows[n - 1];
      Observation(rows[..n]) == Observation(rows[..n - 1]) + ObservedHits(last, |last.report.records|)
  {
    assert rows[..n][..n - 1] == rows[..n - 1] && rows[..n][n - 1] == rows[n - 1];
    hide ObservedHits;
  }

  // --- which hits there are ---

  /** h is the record at position p as the observer sees it. */
  predicate IsHit(row: Row, p: nat, h: Hit) {
    && p < |row.report.records|
    && var rec := row.report.records[p];
    && From(rec, h.pair.ip) && h.pair.domain == row.report.key.domain
    && h.serial == row.serial && h.begin == row.report.begin && h.end == row.report.end
    && h.count == rec.count && (h.aligned <==> rec.dkimAlign == Pass || rec.spfAlign == Pass)
  }

  lemma {:induction false} HitsAre(row: Row, n: nat, h: Hit)
    requires n <= |row.report.records|
    ensures h in ObservedHits(row, n) <==> exists p :: 0 <= p < n && IsHit(row, p, h)
  {
    if n == 0 {
    } else {
      var rec, hits := row.report.records[n - 1], ObservedHits(row, n - 1);
      HitsAre(row, n - 1, h);
      ObservedStep(row, n);
      hide ObservedHits;
      if ip :| From(rec, ip) {
        assert h in hits + [HitOf(row, rec, ip)] <==> h in hits || h == HitOf(row, rec, ip);
        assert h == HitOf(row, rec, ip) <==> IsHit(row, n - 1, h);
      }
    }
  }

  lemma {:induction false} HistoryHits(rows: seq<Row>, n: nat, h: Hit)
    requires n <= |rows|
    ensures h in Observation(rows[..n]) <==> exists i, p :: 0 <= i < n && 0 <= p && IsHit(rows[i], p, h)
  {
    if n == 0 {
    } else {
      HistoryHits(rows, n - 1, h);
      var last := rows[n - 1];
      ObservationStep(rows, n);
      HitsAre(last, |last.report.records|, h);
      hide Observation, ObservedHits, From;
      if exists p :: 0 <= p < |last.report.records| && IsHit(last, p, h) {
        var p :| 0 <= p < |last.report.records| && IsHit(last, p, h);
        assert IsHit(rows[n - 1], p, h);
      }
      if exists i, p :: 0 <= i < n && 0 <= p && IsHit(rows[i], p, h) {
        var i, p :| 0 <= i < n && 0 <= p && IsHit(rows[i], p, h);
        if i == n - 1 { assert 0 <= p < |last.report.records|; }
      }
    }
  }

  lemma ShownIsHit(rows: seq<Row>, i: nat, k: Pair) returns (h: Hit)
    requires i < |rows| && Shows(rows[i], k)
    ensures h in Observation(rows) && h.pair == k
    ensures h.serial == rows[i].serial && h.begin == rows[i].report.begin && h.end == rows[i].report.end
  {
    var row := rows[i];
    var p :| 0 <= p < |row.report.records| && From(row.report.records[p], k.ip);
    h := HitOf(row, row.report.records[p], k.ip);
    assert rows[..|rows|] == rows;
    HistoryHits(rows, |rows|, h);
    assert IsHit(rows[i], p, h);
  }

  lemma HitIsShown(rows: seq<Row>, h: Hit) returns (i: nat)
    requires h in Observation(rows)
    ensures i < |rows| && Shows(rows[i], h.pair)
    ensures h.serial == rows[i].serial && h.begin == rows[i].report.begin && h.end == rows[i].report.end
  {
    assert rows[..|rows|] == rows;
    HistoryHits(rows, |rows|, h);
    var i0, p :| 0 <= i0 < |rows| && 0 <= p && IsHit(rows[i0], p, h);
    i := i0;
  }

  lemma MentionedIff(rows: seq<Row>, k: Pair)
    ensures Mentions(Observation(rows), k) <==> exists i :: 0 <= i < |rows| && Shows(rows[i], k)
  {
    var hits := Observation(rows);
    if Mentions(hits, k) {
      var j :| 0 <= j < |hits| && hits[j].pair == k;
      var i := HitIsShown(rows, hits[j]);
    }
    if exists i :: 0 <= i < |rows| && Shows(rows[i], k) {
      var i :| 0 <= i < |rows| && Shows(rows[i], k);
      var h := ShownIsHit(rows, i, k);
      var j :| 0 <= j < |hits| && hits[j] == h;
    }
  }

  // --- theorems ---

  /** For any stored history, any order in which its records reached the observers and
      any batch size: the maintained table and the backfilled one have a row for a pair
      exactly if some report about the domain has a record of the address; msgs is the
      sum over those records, aligned the sum over those with DKIM or SPF aligned. */
  lemma CountsAreSums(rows: seq<Row>, ops: seq<Op>, max: int, step: int, k: Pair)
    requires step > 0 && Parsed(rows, max)
    requires forall i :: 0 <= i < |ops| ==> ops[i].Observe?
    requires multiset(Observed(ops)) == multiset(Observation(rows))
    ensures var t, g := ApplyAll(map[], ops), MergeInto(map[], GroupBy(Join(rows), 0, LastTo(max, step)));
      && (k in t <==> exists i :: 0 <= i < |rows| && Shows(rows[i], k)) && (k in g <==> k in t)
      && (k in t ==>
            && t[k].msgs == g[k].msgs == SentFor(rows, |rows|, k, false)
            && t[k].aligned == g[k].aligned == SentFor(rows, |rows|, k, true))
  {
    BackfillMatchesObservers(rows, ops, max, step, k);
    ObserverSums(ops, k);
    SumsPermute(Observed(ops), Observation(rows), k);
    MentionsPermute(Observed(ops), Observation(rows), k);
    assert rows[..|rows|] == rows;
    HistorySums(rows, |rows|, k);
    MentionedIff(rows, k);
  }

  /** What the observer does to the table for a report with one record: the pair's row
      is created, unacknowledged and first and last seen now, or it gets the counts
      and a new last_seen; no other row changes. */
  lemma OneRecordUpserts(t: Table, row: Row, rec: Record, ip: Addr, now: int, fates: nat -> Commit, k: Pair)
    requires row.report.records == [rec] && From(rec, ip) && !fates(0).NotApplied?
    ensures var t' := ApplyAll(t, Upserts(row, 1, now, fates));
            var alignedN := if rec.dkimAlign == Pass || rec.spfAlign == Pass then rec.count else 0;
      if k != Pair(row.report.key.domain, ip) then Get(t', k) == Get(t, k)
      else
        && k in t'
        && t'[k] ==
           if k in t
           then
             var was := t[k];
             SourceRow(was.firstSeen, now, was.firstSerial, was.msgs + rec.count, was.aligned + alignedN, was.acked)
           else SourceRow(now, now, row.serial, rec.count, alignedN, false)
  {
    var op := Observe(HitOf(row, rec, ip), now, fates(0).Applied?);
    UpsertsStep(row, 0, now, fates);
    OpStep(t, [], op, 0);
    UpsertNothing(t, row, now, 0, fates);
    assert Upserts(row, 1, now, fates) == [] + [op];
  }

  /** Record p is the first of the report that came from ip. */
  ghost predicate First(recs: seq<Record>, p: nat, ip: Addr) {
    p < |recs| && From(recs[p], ip) && forall q :: 0 <= q < p ==> !From(recs[q], ip)
  }

  /** What the n-th record adds to the upserts. */
  lemma RecordStep(t: Table, row: Row, n: nat, now: int, fates: nat -> Commit, minMsgs: int, k: Pair)
    requires n < |row.report.records| && fates(n).Applied?
    ensures var rec, ops, ops' := row.report.records[n], Upserts(row, n, now, fates), Upserts(row, n + 1, now, fates);
            var mine := k.domain == row.report.key.domain && From(rec, k.ip);
      && (k in ApplyAll(t, ops') <==> k in ApplyAll(t, ops) || mine)
      && NewSender(t, ops', minMsgs, k) == NewSender(t, ops, minMsgs, k)
           + One(mine && k !in ApplyAll(t, ops)
                 && (rec.count >= minMsgs || (rec.dkimAlign != Pass && rec.spfAlign != Pass)))
  {
    var rec, ops := row.report.records[n], Upserts(row, n, now, fates);
    var ip := RecordIP(Cols(rec));
    UpsertsStep(row, n, now, fates);
    if ip.Some? {
      OpStep(t, ops, Observe(HitOf(row, rec, ip.value), now, true), minMsgs);
      hide Upserts, ApplyAll, NewSender, RecordIP;
      assert From(rec, k.ip) <==> k.ip == ip.value;
    }
  }

  lemma {:induction false} KnownAfter(t: Table, row: Row, n: nat, now: int, fates: nat -> Commit, k: Pair)
    requires n <= |row.report.records| && forall p: nat :: p < n ==> fates(p).Applied?
    ensures k in ApplyAll(t, Upserts(row, n, now, fates)) <==>
      k in t || (k.domain == row.report.key.domain && exists p :: 0 <= p < n && From(row.report.records[p], k.ip))
  {
    UpsertNothing(t, row, now, 0, fates);
    hide Upserts, ApplyAll, From;
    if n == 0 {
    } else {
      KnownAfter(t, row, n - 1, now, fates, k);
      RecordStep(t, row, n - 1, now, fates, 0, k);
    }
  }

  /** sender.new, read off a report: if no statement fails, a sender unknown so far is
      announced exactly when the first record it has in the report is as large as the
      threshold or has neither DKIM nor SPF aligned, whatever the later ones are. */
  lemma {:induction false} FirstRecordDecides(t: Table, row: Row, n: nat, now: int, minMsgs: int, fates: nat -> Commit,
      k: Pair)
    requires n <= |row.report.records| && forall p: nat :: p < n ==> fates(p).Applied?
    ensures var recs := row.report.records;
      NewSender(t, Upserts(row, n, now, fates), minMsgs, k)
        == One(k !in t && k.domain == row.report.key.domain
               && exists p: nat :: p < n && First(recs, p, k.ip)
                    && (recs[p].count >= minMsgs || (recs[p].dkimAlign != Pass && recs[p].spfAlign != Pass)))
  {
    var recs := row.report.records;
    UpsertNothing(t, row, now, minMsgs, fates);
    hide Upserts, ApplyAll, NewSender, From;
    if n == 0 {
    } else {
      FirstRecordDecides(t, row, n - 1, now, minMsgs, fates, k);
      RecordStep(t, row, n - 1, now, fates, minMsgs, k);
      KnownAfter(t, row, n - 1, now, fates, k);
      FirstIff(recs, n - 1, k.ip);
      hide First;
    }
  }

  lemma FirstIff(recs: seq<Record>, n: nat, ip: Addr)
    requires n < |recs|
    ensures First(recs, n, ip) <==> From(recs[n], ip) && !exists q :: 0 <= q < n && From(recs[q], ip)
    ensures forall p: nat :: First(recs, p, ip) ==> p < |recs| && From(recs[p], ip)
  {
  }

  // --- when a sender was seen ---

  /** Hit j is one of the pair with a serial in (lo, hi]. */
  predicate Picked(hits: seq<Hit>, j: int, lo: int, hi: int, k: Pair) {
    0 <= j < |hits| && hits[j].pair == k && lo < hits[j].serial <= hi
  }

  ghost predicate NonePicked(hits: seq<Hit>, lo: int, hi: int, k: Pair) {
    forall j :: !Picked(hits, j, lo, hi, k)
  }

  /** The row spans exactly the picked hits. */
  ghost predicate Spans(x: SourceRow, hits: seq<Hit>, lo: int, hi: int, k: Pair) {
    && (forall j :: Picked(hits, j, lo, hi, k) ==>
          x.firstSeen <= hits[j].begin && hits[j].end <= x.lastSeen && x.firstSerial <= hits[j].serial)
    && (exists j :: Picked(hits, j, lo, hi, k) && hits[j].begin == x.firstSeen)
    && (exists j :: Picked(hits, j, lo, hi, k) && hits[j].end == x.lastSeen)
    && (exists j :: Picked(hits, j, lo, hi, k) && hits[j].serial == x.firstSerial)
  }

  lemma {:induction false} AggregateSpans(hits: seq<Hit>, lo: int, hi: int, k: Pair)
    ensures match Aggregate(hits, lo, hi, k)
      case None => NonePicked(hits, lo, hi, k)
      case Some(x) => Spans(x, hits, lo, hi, k)
  {
    if hits == [] {
    } else {
      var n := |hits| - 1;
      var front := hits[..n];
      AggregateSpans(front, lo, hi, k);
      forall j
        ensures Picked(hits, j, lo, hi, k) <==> Picked(front, j, lo, hi, k) || (j == n && Picked(hits, n, lo, hi, k)) {
        if 0 <= j < n { assert front[j] == hits[j]; }
      }
      SpansStep(hits, lo, hi, k);
    }
  }

  lemma SpansStep(hits: seq<Hit>, lo: int, hi: int, k: Pair)
    requires hits != []
    requires var n := |hits| - 1; forall j ::
      Picked(hits, j, lo, hi, k) <==> Picked(hits[..n], j, lo, hi, k) || (j == n && Picked(hits, n, lo, hi, k))
    requires match Aggregate(hits[..|hits| - 1], lo, hi, k)
      case None => NonePicked(hits[..|hits| - 1], lo, hi, k)
      case Some(x) => Spans(x, hits[..|hits| - 1], lo, hi, k)
    ensures Aggregate(hits, lo, hi, k).Some? ==> Spans(Aggregate(hits, lo, hi, k).value, hits, lo, hi, k)
    ensures Aggregate(hits, lo, hi, k).None? ==> NonePicked(hits, lo, hi, k)
  {
    var n := |hits| - 1;
    var front := hits[..n];
    var rest := Aggregate(front, lo, hi, k);
    if rest.Some? {
      var a :| Picked(front, a, lo, hi, k) && front[a].begin == rest.value.firstSeen;
      var b :| Picked(front, b, lo, hi, k) && front[b].end == rest.value.lastSeen;
      var c :| Picked(front, c, lo, hi, k) && front[c].serial == rest.value.firstSerial;
      assert Picked(hits, a, lo, hi, k) && Picked(hits, b, lo, hi, k) && Picked(hits, c, lo, hi, k);
    }
  }

  ghost predicate SpansReports(x: SourceRow, rows: seq<Row>, lo: int, hi: int, k: Pair) {
    && (forall i :: ShownIn(rows, i, lo, hi, k) ==>
          x.firstSeen <= rows[i].report.begin && rows[i].report.end <= x.lastSeen && x.firstSerial <= rows[i].serial)
    && (exists i :: ShownIn(rows, i, lo, hi, k) && rows[i].report.begin == x.firstSeen)
    && (exists i :: ShownIn(rows, i, lo, hi, k) && rows[i].report.end == x.lastSeen)
    && (exists i :: ShownIn(rows, i, lo, hi, k) && rows[i].serial == x.firstSerial)
  }

  /** A batch of the backfill over the serials in (lo, hi] gives a pair a row exactly if
      a report in the range shows it; first_seen is the earliest begin of those reports,
      last_seen the latest end, first_serial the least serial, and it is acknowledged. */
  lemma BatchRowSpans(rows: seq<Row>, max: int, lo: int, hi: int, k: Pair)
    requires Parsed(rows, max)
    ensures var g := GroupBy(Join(rows), lo, hi);
      && (k in g <==> exists i :: ShownIn(rows, i, lo, hi, k))
      && (k in g ==> g[k].acked && SpansReports(g[k], rows, lo, hi, k))
  {
    var hits, g := Observation(rows), GroupBy(Join(rows), lo, hi);
    SameHistory(rows, max);
    GroupByGet(hits, lo, hi, k);
    AggregateNeedsHit(hits, lo, hi, k);
    AggregateSpans(hits, lo, hi, k);
    hide Aggregate, GroupBy, Observation, Join, ShownIn, SpansReports, Parsed;
    if k in g {
      RowSpans(rows, hits, g[k], lo, hi, k);
    } else {
      NoneShown(rows, hits, lo, hi, k);
    }
  }

  lemma NoneShown(rows: seq<Row>, hits: seq<Hit>, lo: int, hi: int, k: Pair)
    requires hits == Observation(rows) && NonePicked(hits, lo, hi, k)
    ensures forall i :: !ShownIn(rows, i, lo, hi, k)
  {
    forall i ensures !ShownIn(rows, i, lo, hi, k) {
      if ShownIn(rows, i, lo, hi, k) {
        var h := ShownIsHit(rows, i, k);
        var j :| 0 <= j < |hits| && hits[j] == h;
        assert Picked(hits, j, lo, hi, k);
        assert false;
      }
    }
  }

  lemma RowSpans(rows: seq<Row>, hits: seq<Hit>, x: SourceRow, lo: int, hi: int, k: Pair)
    requires hits == Observation(rows) && Spans(x, hits, lo, hi, k)
    ensures SpansReports(x, rows, lo, hi, k)
  {
    hide Observation, Shows;
    forall i | ShownIn(rows, i, lo, hi, k)
      ensures x.firstSeen <= rows[i].report.begin && rows[i].report.end <= x.lastSeen && x.firstSerial <= rows[i].serial
    {
      var h := ShownIsHit(rows, i, k);
      var j :| 0 <= j < |hits| && hits[j] == h;
      assert Picked(hits, j, lo, hi, k);
    }
    var a :| Picked(hits, a, lo, hi, k) && hits[a].begin == x.firstSeen;
    var b :| Picked(hits, b, lo, hi, k) && hits[b].end == x.lastSeen;
    var c :| Picked(hits, c, lo, hi, k) && hits[c].serial == x.firstSerial;
    var i1 := HitIsShown(rows, hits[a]);
    var i2 := HitIsShown(rows, hits[b]);
    var i3 := HitIsShown(rows, hits[c]);
    assert ShownIn(rows, i1, lo, hi, k) && ShownIn(rows, i2, lo, hi, k) && ShownIn(rows, i3, lo, hi, k);
  }

  /** Where a batch meets a row that is there: the span widens, the counts add up, and
      the row stays acknowledged or not as it was; without one the batch's row is
      inserted, and rows the batch has nothing for stay. */
  lemma BatchMeetsRow(t: Table, hits: seq<Hit>, lo: int, hi: int, k: Pair)
    ensures var g, u := GroupBy(hits, lo, hi), Apply(t, Import(hits, lo, hi));
      && (k in u <==> k in t || k in g)
      && (k in t && k !in g ==> u[k] == t[k]) && (k !in t && k in g ==> u[k] == g[k])
      && (k in t && k in g ==>
            && u[k].firstSeen == (if t[k].firstSeen <= g[k].firstSeen then t[k].firstSeen else g[k].firstSeen)
            && u[k].lastSeen == (if t[k].lastSeen <= g[k].lastSeen then g[k].lastSeen else t[k].lastSeen)
            && u[k].firstSerial == (if t[k].firstSerial <= g[k].firstSerial then t[k].firstSerial else g[k].firstSerial)
            && u[k].msgs == t[k].msgs + g[k].msgs && u[k].aligned == t[k].aligned + g[k].aligned
            && u[k].acked == t[k].acked)
  {
    MergeIntoGet(t, GroupBy(hits, lo, hi), k);
    hide GroupBy, MergeInto;
  }
}
