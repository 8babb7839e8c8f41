/** dkim_auth on top of the ingest machine: which reports have their selector rows in
    every reachable state, with saves that fail, crashes, and the backfill at work on
    the live system. */
module Inventory {
  import opened Reports
  import opened Ingest
  import opened IngestTheorems
  import opened Fanout
  import Selectors

  /** Report i has its rows: its observer wrote them or the backfill did. */
  predicate Has(book: Book, i: nat)
    requires i < |book.fates| && i < |book.filled|
  {
    book.fates[i].Written? || book.filled[i]
  }

  function Wanted(row: Row): seq<Selectors.Entry> { Selectors.Entries(row.report) }

  // --- what every step keeps ---

  ghost predicate RowsOk(rows: seq<Row>, book: Book) {
    && |book.fates| == |book.filled| == |rows|
    && (forall i :: 0 <= i < |rows| ==>
          Selectors.Of(book.table, rows[i].serial) == if Has(book, i) then Wanted(rows[i]) else [])
    && (forall serial :: NoRow(rows, serial) ==> Selectors.Of(book.table, serial) == [])
  }

  predicate NoRow(rows: seq<Row>, serial: int) {
    forall i :: 0 <= i < |rows| ==> rows[i].serial != serial
  }

  /** A save is pending exactly while a walk is on its way to it. */
  ghost predicate WalksOk(walks: seq<Walk>, fates: seq<AuthFate>) {
    && (forall w :: 0 <= w < |walks| ==> walks[w].i < |fates| && (walks[w].auth <==> fates[walks[w].i].Pending?))
    && (forall v, w :: 0 <= v < w < |walks| ==> walks[v].i != walks[w].i)
    && (forall i :: 0 <= i < |fates| && fates[i].Pending? ==> exists w :: 0 <= w < |walks| && walks[w].i == i)
  }

  ghost predicate BookOk(j: Joint) {
    RowsOk(j.core.db.reports, j.book) && WalksOk(j.walks, j.book.fates)
  }

  /** Writing the rows of report i, whoever does it. */
  lemma WriteOk(rows: seq<Row>, book: Book, book': Book, i: nat)
    requires RowsOk(rows, book) && DistinctRows(rows) && i < |rows|
    requires book'.table == Selectors.Replace(book.table, rows[i].serial, Wanted(rows[i]))
      || (Wanted(rows[i]) == [] && book'.table == book.table)
    requires |book'.fates| == |book'.filled| == |rows| && Has(book', i)
    requires forall k :: 0 <= k < |rows| && k != i ==> Has(book', k) == Has(book, k)
    ensures RowsOk(rows, book')
  {
    forall serial ensures Selectors.Of(book'.table, serial)
        == if serial == rows[i].serial then Wanted(rows[i]) else Selectors.Of(book.table, serial) {
      Selectors.ReplaceIs(book.table, rows[i].serial, Wanted(rows[i]), serial);
    }
    forall k | 0 <= k < |rows| && k != i ensures rows[k].serial != rows[i].serial {
      if k < i { assert rows[k].serial != rows[i].serial; }
    }
  }

  /** A new row starts without selector rows. */
  lemma OpenOk(rows: seq<Row>, row: Row, book: Book, fate: AuthFate)
    requires RowsOk(rows, book) && DistinctRows(rows + [row]) && !fate.Written?
    ensures RowsOk(rows + [row], Open(book, fate))
  {
    var rows', book' := rows + [row], Open(book, fate);
    forall i | 0 <= i < |rows| ensures rows[i].serial != row.serial {
      assert rows'[i] == rows[i] && rows'[|rows|] == row;
    }
    assert NoRow(rows, row.serial);
    forall i | 0 <= i < |rows'|
      ensures Selectors.Of(book'.table, rows'[i].serial) == if Has(book', i) then Wanted(rows'[i]) else []
    {
      if i < |rows| { assert Has(book', i) == Has(book, i); }
    }
    forall serial | NoRow(rows', serial) ensures NoRow(rows, serial) {
      forall i | 0 <= i < |rows| ensures rows[i].serial != serial { assert rows'[i] == rows[i]; }
    }
  }

  lemma OpenWalks(walks: seq<Walk>, fates: seq<AuthFate>, walk: Walk)
    requires WalksOk(walks, fates) && walk.i == |fates| && walk.auth
    ensures WalksOk(walks + [walk], fates + [Pending]) && WalksOk(walks, fates + [Missed])
  {
    var all, more := walks + [walk], fates + [Pending];
    forall i | 0 <= i < |more| && more[i].Pending? ensures exists w :: 0 <= w < |all| && all[w].i == i {
      if i < |fates| {
        var w :| 0 <= w < |walks| && walks[w].i == i;
        assert all[w].i == i;
      } else {
        assert all[|walks|].i == i;
      }
    }
  }

  /** The walk has had its turn at the save. */
  lemma CloseWalk(walks: seq<Walk>, fates: seq<AuthFate>, w: nat, fate: AuthFate)
    requires WalksOk(walks, fates) && w < |walks| && !fate.Pending?
    ensures WalksOk(walks[w := walks[w].(auth := false)], fates[walks[w].i := fate])
  {
    var i := walks[w].i;
    var walks', fates' := walks[w := walks[w].(auth := false)], fates[i := fate];
    forall k | 0 <= k < |fates'| && fates'[k].Pending? ensures exists v :: 0 <= v < |walks'| && walks'[v].i == k {
      var v :| 0 <= v < |walks| && walks[v].i == k;
      assert walks'[v].i == k;
    }
    forall v | 0 <= v < |walks'| && v != w ensures walks'[v].i != i {
      if v < w { assert walks[v].i != walks[w].i; } else { assert walks[w].i != walks[v].i; }
    }
  }

  lemma CutOk(rows: seq<Row>, book: Book)
    requires RowsOk(rows, book)
    ensures RowsOk(rows, book.(fates := Cut(book.fates))) && WalksOk([], Cut(book.fates))
  {
    forall i | 0 <= i < |rows| ensures Has(book.(fates := Cut(book.fates)), i) == Has(book, i) {}
  }

  lemma MissOk(rows: seq<Row>, book: Book, i: nat)
    requires RowsOk(rows, book) && i < |rows| && book.fates[i].Pending?
    ensures RowsOk(rows, book.(fates := book.fates[i := Missed]))
  {
    var book' := book.(fates := book.fates[i := Missed]);
    forall k | 0 <= k < |rows| ensures Has(book', k) == Has(book, k) {}
  }

  lemma FollowOk(j: Joint, a: Action, core: State)
    requires BookOk(j) && DistinctRows(core.db.reports)
    requires var rows, rows' := j.core.db.reports, core.db.reports;
      rows' == rows || (a.Work? && |rows'| == |rows| + 1 && rows'[..|rows|] == rows)
    ensures BookOk(Follow(j, a, core))
  {
    var rows, rows' := j.core.db.reports, core.db.reports;
    hide RowsOk, WalksOk, DistinctRows, Hits;
    if a.Crash? {
      CutOk(rows, j.book);
    } else if rows' != rows {
      var n := |rows|;
      assert rows' == rows + [rows'[n]];
      OpenOk(rows, rows'[n], j.book, Pending);
      OpenOk(rows, rows'[n], j.book, Missed);
      FatesSize(rows, j.book);
      OpenWalks(j.walks, j.book.fates, Walk(a.tid, n, Hits(rows'[n]), true));
    }
  }

  lemma FatesSize(rows: seq<Row>, book: Book)
    requires RowsOk(rows, book)
    ensures |book.fates| == |book.filled| == |rows|
  {
  }

  lemma SaveOk(j: Joint, w: nat, fate: Commit)
    requires BookOk(j) && DistinctRows(j.core.db.reports) && CanSaveAuth(j, w)
    ensures BookOk(DoSaveAuth(j, w, fate))
  {
    var i, rows := j.walks[w].i, j.core.db.reports;
    var t := DoSaveAuth(j, w, fate);
    CloseWalk(j.walks, j.book.fates, w, Written);
    CloseWalk(j.walks, j.book.fates, w, Missed);
    if Wanted(rows[i]) != [] && fate.NotApplied? {
      MissOk(rows, j.book, i);
    } else {
      WriteOk(rows, j.book, t.book, i);
    }
  }

  lemma FillOk(j: Joint, i: nat)
    requires BookOk(j) && DistinctRows(j.core.db.reports) && CanFillAuth(j, i)
    ensures BookOk(DoFillAuth(j, i))
  {
    WriteOk(j.core.db.reports, j.book, DoFillAuth(j, i).book, i);
  }

  lemma UpsertOk(j: Joint, w: nat, now: int, fate: Commit)
    requires BookOk(j) && CanUpsert(j, w)
    ensures BookOk(DoUpsert(j, w, now, fate))
  {
    var t := DoUpsert(j, w, now, fate);
    forall i | 0 <= i < |j.book.fates| && j.book.fates[i].Pending?
      ensures exists v :: 0 <= v < |t.walks| && t.walks[v].i == i
    {
      var v :| 0 <= v < |j.walks| && j.walks[v].i == i;
      assert t.walks[v].i == i;
    }
  }

  lemma StepOk(j: Joint, e: Event)
    requires Inv(j.core) && BookOk(j)
    ensures BookOk(Step(j, e))
  {
    Distinct(j.core);
    match e
    case Core(a) =>
      RowsGrowByOne(j.core, a);
      StepKeepsInv(j.core, a);
      Distinct(Do(j.core, a));
      hide BookOk, Inv, Do;
      FollowOk(j, a, Do(j.core, a));
    case Upsert(w, now, fate) => if CanUpsert(j, w) { UpsertOk(j, w, now, fate); }
    case SaveAuth(w, fate) => if CanSaveAuth(j, w) { SaveOk(j, w, fate); }
    case Fill(lo, hi) =>
    case FillAuth(i) => if CanFillAuth(j, i) { FillOk(j, i); }
  }

  lemma Distinct(s: State)
    requires Inv(s)
    ensures DistinctRows(s.db.reports)
  {
  }

  lemma {:induction false} RunOk(es: seq<Event>)
    ensures Inv(RunJoint(START, es).core) && BookOk(RunJoint(START, es))
  {
    hide Inv;
    if es == [] {
      RunAccounts([]);
    } else {
      RunAccounts(es[..|es| - 1]);
      RunAccounts(es);
      RunOk(es[..|es| - 1]);
      StepOk(RunJoint(START, es[..|es| - 1]), es[|es| - 1]);
    }
  }

  // --- theorems ---

  /** In every reachable state a stored report has exactly the selector rows its
      signatures demand if its observer or the backfill wrote them, and none
      otherwise; its observer's save is done, or missed, or still on its way with
      exactly one walk, and a crash leaves none on its way. A backfill of the running
      system never counts anything twice. */
  lemma AuthConservation(j: Joint, i: nat)
    requires ReachableJoint(j) && i < |j.core.db.reports|
    ensures |j.book.fates| == |j.book.filled| == |j.core.db.reports|
    ensures Selectors.Of(j.book.table, j.core.db.reports[i].serial)
         == if Has(j.book, i) then Wanted(j.core.db.reports[i]) else []
    ensures j.book.fates[i].Pending? <==> exists w :: 0 <= w < |j.walks| && j.walks[w].i == i && j.walks[w].auth
    ensures forall v, w :: 0 <= v < w < |j.walks| ==> j.walks[v].i != j.walks[w].i
    ensures forall serial :: NoRow(j.core.db.reports, serial) ==> Selectors.Of(j.book.table, serial) == []
  {
    var es: seq<Event> :| j == RunJoint(START, es);
    RunOk(es);
  }

  /** The inventory is complete exactly when every report with signatures was written
      by its observer or by the backfill. */
  lemma AuthExactIff(j: Joint)
    requires ReachableJoint(j)
    ensures var rows := j.core.db.reports;
      && |j.book.fates| == |j.book.filled| == |rows|
      && ((forall i :: 0 <= i < |rows| ==> Selectors.Of(j.book.table, rows[i].serial) == Wanted(rows[i]))
          <==> forall i :: 0 <= i < |rows| ==> Wanted(rows[i]) == [] || Has(j.book, i))
  {
    var es: seq<Event> :| j == RunJoint(START, es);
    RunOk(es);
  }
}
