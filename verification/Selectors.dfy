/** dkim_auth, the DKIM selector inventory: rewritten per report by an observer at
    ingest and for history by paging through the stored documents
    (parser/internal/selectors/selectors.go, parser/internal/store/store_reports2.go). */
module Selectors {
  import opened Reports
  import opened Text

  datatype Entry = Entry(domain: Option<string>, selector: Option<string>, result: Option<string>)

  datatype AuthRow = AuthRow(serial: int, entry: Entry)

  /** The stored document of a report, in primary key order. raw is None when the
      column is NULL; the document inside is None when it no longer parses. */
  datatype Stored = Stored(serial: int, raw: Option<Option<Report>>)

  // --- DKIMAuthEntries ---

  function OptTrunc(s: string, n: nat): Option<string> {
    var t := Trim(s);
    if t == "" then None else Some(if |t| > n then t[..n] else t)
  }

  function EntryOf(a: AuthResult): Entry {
    Entry(OptTrunc(a.domain, 255), OptTrunc(a.selector, 255), OptTrunc(Lower(a.result), 20))
  }

  function RecordEntries(auths: seq<AuthResult>, n: nat): seq<Entry>
    requires n <= |auths|
  {
    if n == 0 then [] else RecordEntries(auths, n - 1) + [EntryOf(auths[n - 1])]
  }

  /** Every signature of every record, in document order. */
  function ReportEntries(recs: seq<Record>, n: nat): seq<Entry>
    requires n <= |recs|
  {
    if n == 0 then [] else ReportEntries(recs, n - 1) + RecordEntries(recs[n - 1].dkimAll, |recs[n - 1].dkimAll|)
  }

  function Entries(rep: Report): seq<Entry> { ReportEntries(rep.records, |rep.records|) }

  method DKIMAuthEntries(rep: Report) returns (out: seq<Entry>)
    ensures out == Entries(rep)
  {
    hide EntryOf;
    out := [];
    for i := 0 to |rep.records|
      invariant out == ReportEntries(rep.records, i)
    {
      var auths := rep.records[i].dkimAll;
      ghost var before := out;
      for j := 0 to |auths|
        invariant out == before + RecordEntries(auths, j)
      {
        out := out + [EntryOf(auths[j])];
      }
    }
  }

  /** Where the entries of record i begin. */
  function Offset(recs: seq<Record>, i: nat): nat
    requires i <= |recs|
  {
    if i == 0 then 0 else Offset(recs, i - 1) + |recs[i - 1].dkimAll|
  }

  lemma {:induction false} RecordEntryAt(auths: seq<AuthResult>, n: nat)
    requires n <= |auths|
    ensures |RecordEntries(auths, n)| == n && forall j :: 0 <= j < n ==> RecordEntries(auths, n)[j] == EntryOf(auths[j])
  {
    hide EntryOf;
    if n == 0 {
    } else {
      RecordEntryAt(auths, n - 1);
    }
  }

  /** There is one row per signature, signature j of record i at its place. */
  lemma {:induction false} EntryAt(recs: seq<Record>, n: nat, i: nat, j: nat)
    requires i < n <= |recs| && j < |recs[i].dkimAll|
    ensures |ReportEntries(recs, n)| == Offset(recs, n) && Offset(recs, i) + j < Offset(recs, n)
    ensures ReportEntries(recs, n)[Offset(recs, i) + j] == EntryOf(recs[i].dkimAll[j])
  {
    hide EntryOf;
    var auths := recs[n - 1].dkimAll;
    RecordEntryAt(auths, |auths|);
    EntriesSize(recs, n - 1);
    if i == n - 1 {
    } else {
      EntryAt(recs, n - 1, i, j);
    }
  }

  lemma {:induction false} EntriesSize(recs: seq<Record>, n: nat)
    requires n <= |recs|
    ensures |ReportEntries(recs, n)| == Offset(recs, n)
  {
    hide RecordEntries;
    if n == 0 {
    } else {
      EntriesSize(recs, n - 1);
      RecordEntryAt(recs[n - 1].dkimAll, |recs[n - 1].dkimAll|);
    }
  }

  /** The first max characters of a text, nothing if it is empty. */
  function Column(text: string, max: nat): Option<string> {
    if text == "" then None else if |text| <= max then Some(text) else Some(text[..max])
  }

  /** Domain, selector and result of a signature each land in their own column: what
      stands between blanks, the result in small letters, cut to the column's width;
      blank fields are NULL. */
  lemma EntryIs(a: AuthResult, domain: string, selector: string, low: string, result: string)
    requires TrimsTo(a.domain, domain) && TrimsTo(a.selector, selector)
    requires LowersTo(a.result, low) && TrimsTo(low, result)
    ensures EntryOf(a) == Entry(Column(domain, 255), Column(selector, 255), Column(result, 20))
  {
    TrimIff(a.domain, domain);
    TrimIff(a.selector, selector);
    LowerIff(a.result, low);
    TrimIff(low, result);
    hide Trim, Lower, TrimsTo, LowersTo;
  }

  predicate Fits(field: Option<string>, max: nat) {
    field.Some? ==> 0 < |field.value| <= max
  }

  /** Every field fits its column, none is stored empty, results are lower case. */
  lemma EntryFits(a: AuthResult)
    ensures var e := EntryOf(a);
      && Fits(e.domain, 255) && Fits(e.selector, 255) && Fits(e.result, 20)
      && (e.result.Some? ==> forall k :: 0 <= k < |e.result.value| ==> !('A' <= e.result.value[k] <= 'Z'))
  {
    var low := Lower(a.result);
    forall k | 0 <= k < |low| ensures !('A' <= low[k] <= 'Z') {
      assert low[k] == if 'A' <= a.result[k] <= 'Z' then a.result[k] - 'A' + 'a' else a.result[k];
    }
    TrimWithin(low);
    var result := EntryOf(a).result;
    if result.Some? {
      forall k | 0 <= k < |result.value| ensures !('A' <= result.value[k] <= 'Z') {
        assert result.value[k] == Trim(low)[k] && Trim(low)[k] in Trim(low);
      }
    }
  }

  lemma TrimWithin(s: string)
    ensures forall c :: c in Trim(s) ==> c in s
  {
    LeftWithin(s);
    RightWithin(TrimLeft(s));
  }

  lemma {:induction false} LeftWithin(s: string)
    ensures forall c :: c in TrimLeft(s) ==> c in s
  {
    if s == "" {
    } else {
      LeftWithin(s[1..]);
    }
  }

  lemma {:induction false} RightWithin(s: string)
    ensures forall c :: c in TrimRight(s) ==> c in s
  {
    if s == "" {
    } else {
      RightWithin(s[..|s| - 1]);
    }
  }

  // --- the table ---

  /** DELETE … WHERE serial = $1. */
  function Without(rows: seq<AuthRow>, serial: int): seq<AuthRow> {
    if rows == [] then []
    else Without(rows[..|rows| - 1], serial) + if rows[|rows| - 1].serial == serial then [] else [rows[|rows| - 1]]
  }

  function Of(rows: seq<AuthRow>, serial: int): seq<Entry> {
    if rows == [] then []
    else Of(rows[..|rows| - 1], serial) + if rows[|rows| - 1].serial == serial then [rows[|rows| - 1].entry] else []
  }

  function Rows(serial: int, entries: seq<Entry>): seq<AuthRow> {
    seq(|entries|, i requires 0 <= i < |entries| => AuthRow(serial, entries[i]))
  }

  function Replace(rows: seq<AuthRow>, serial: int, entries: seq<Entry>): seq<AuthRow> {
    Without(rows, serial) + Rows(serial, entries)
  }

  lemma {:induction false} OfConcat(a: seq<AuthRow>, b: seq<AuthRow>, serial: int)
    ensures Of(a + b, serial) == Of(a, serial) + Of(b, serial)
  {
    if b == [] {
      assert a + b == a;
    } else {
      OfConcat(a, b[..|b| - 1], serial);
      assert (a + b)[..|a + b| - 1] == a + b[..|b| - 1];
    }
  }

  lemma {:induction false} OfWithout(rows: seq<AuthRow>, deleted: int, serial: int)
    ensures Of(Without(rows, deleted), serial) == if serial == deleted then [] else Of(rows, serial)
  {
    if rows == [] {
    } else {
      var n := |rows| - 1;
      OfWithout(rows[..n], deleted, serial);
      var tail := if rows[n].serial == deleted then [] else [rows[n]];
      OfConcat(Without(rows[..n], deleted), tail, serial);
      OfOne(rows[n], serial);
    }
  }

  lemma OfOne(row: AuthRow, serial: int)
    ensures Of([row], serial) == (if row.serial == serial then [row.entry] else []) && Of([], serial) == []
  {
    assert [row][..0] == [];
  }

  lemma {:induction false} OfRows(owner: int, entries: seq<Entry>, serial: int)
    ensures Of(Rows(owner, entries), serial) == if serial == owner then entries else []
  {
    if entries == [] {
    } else {
      var n := |entries| - 1;
      OfRows(owner, entries[..n], serial);
      assert Rows(owner, entries)[..n] == Rows(owner, entries[..n]);
    }
  }

  /** Replacing a report's rows gives it those rows and leaves every other
      report's alone. */
  lemma ReplaceIs(rows: seq<AuthRow>, serial: int, entries: seq<Entry>, other: int)
    ensures Of(Replace(rows, serial, entries), other) == if other == serial then entries else Of(rows, other)
  {
    OfConcat(Without(rows, serial), Rows(serial, entries), other);
    OfWithout(rows, serial, other);
    OfRows(serial, entries, other);
  }

  // --- paging ---

  predicate Ordered(reports: seq<Stored>) {
    forall i, j :: 0 <= i < j < |reports| ==> reports[i].serial < reports[j].serial
  }

  /** The first n reports that still have their document and come after a serial. */
  function Pending(reports: seq<Stored>, n: nat, after: int): seq<Stored>
    requires n <= |reports|
  {
    if n == 0 then []
    else
      var last := reports[n - 1];
      Pending(reports, n - 1, after) + if last.raw.Some? && last.serial > after then [last] else []
  }

  function All(reports: seq<Stored>, after: int): seq<Stored> { Pending(reports, |reports|, after) }

  lemma {:induction false} PendingIn(reports: seq<Stored>, n: nat, after: int)
    requires n <= |reports|
    ensures forall x :: x in Pending(reports, n, after) <==> x in reports[..n] && x.raw.Some? && x.serial > after
  {
    if n == 0 {
    } else {
      PendingIn(reports, n - 1, after);
      assert reports[..n] == reports[..n - 1] + [reports[n - 1]];
    }
  }

  lemma {:induction false} PendingOrdered(reports: seq<Stored>, n: nat, after: int)
    requires n <= |reports| && Ordered(reports)
    ensures Ordered(Pending(reports, n, after))
  {
    if n == 0 {
    } else {
      PendingOrdered(reports, n - 1, after);
      PendingIn(reports, n - 1, after);
      var front := Pending(reports, n - 1, after);
      forall i | 0 <= i < |front| ensures front[i].serial < reports[n - 1].serial {
        assert front[i] in reports[..n - 1];
      }
    }
  }

  /** Keyset paging: listing from the serial of the k-th report on resumes the
      listing right behind it. */
  lemma {:induction false} Resume(reports: seq<Stored>, n: nat, after: int, k: nat)
    requires n <= |reports| && Ordered(reports) && k < |Pending(reports, n, after)|
    ensures Pending(reports, n, Pending(reports, n, after)[k].serial) == Pending(reports, n, after)[k + 1..]
  {
    NoneListed(reports, after);
    hide Pending;
    var front := Pending(reports, n - 1, after);
    PendingIn(reports, n - 1, after);
    if k < |front| {
      assert front[k] in front && front[k] in reports[..n - 1];
      Resume(reports, n - 1, after, k);
      ResumeStep(reports, n, after, k);
    } else {
      ResumeEnd(reports, n, after, k);
    }
  }

  lemma ResumeEnd(reports: seq<Stored>, n: nat, after: int, k: nat)
    requires 0 < n <= |reports| && Ordered(reports)
        && |Pending(reports, n - 1, after)| <= k < |Pending(reports, n, after)|
    ensures Pending(reports, n, Pending(reports, n, after)[k].serial) == Pending(reports, n, after)[k + 1..]
  {
    var front, last := Pending(reports, n - 1, after), reports[n - 1];
    assert Pending(reports, n, after) == front + [last] && k == |front|;
    NoneAfter(reports, n, last.serial);
  }

  lemma NoneListed(reports: seq<Stored>, after: int)
    ensures Pending(reports, 0, after) == []
  {
  }

  lemma DropConcat<T>(a: seq<T>, b: seq<T>, k: nat)
    requires k <= |a|
    ensures (a + b)[k..] == a[k..] + b
  {
  }

  lemma ResumeStep(reports: seq<Stored>, n: nat, after: int, k: nat)
    requires 0 < n <= |reports| && k < |Pending(reports, n - 1, after)|
    requires var s := Pending(reports, n - 1, after)[k].serial;
      after < s < reports[n - 1].serial && Pending(reports, n - 1, s) == Pending(reports, n - 1, after)[k + 1..]
    ensures Pending(reports, n, Pending(reports, n, after)[k].serial) == Pending(reports, n, after)[k + 1..]
  {
    var front, last := Pending(reports, n - 1, after), reports[n - 1];
    DropConcat(front, if last.raw.Some? then [last] else [], k + 1);
  }

  lemma {:induction false} NoneAfter(reports: seq<Stored>, n: nat, after: int)
    requires n <= |reports| && forall i :: 0 <= i < n ==> reports[i].serial <= after
    ensures Pending(reports, n, after) == []
  {
    if n == 0 {
    } else {
      NoneAfter(reports, n - 1, after);
    }
  }

  // --- the backfill ---

  /** The table after the first n listed reports were processed. */
  function Rewritten(rows: seq<AuthRow>, listed: seq<Stored>, n: nat): seq<AuthRow>
    requires n <= |listed|
  {
    if n == 0 then rows
    else Write(Rewritten(rows, listed, n - 1), listed[n - 1])
  }

  function Write(rows: seq<AuthRow>, x: Stored): seq<AuthRow> {
    match x.raw
    case Some(Some(rep)) => Replace(rows, x.serial, Entries(rep))
    case _ => rows
  }

  function Parseable(listed: seq<Stored>, n: nat): nat
    requires n <= |listed|
  {
    if n == 0 then 0
    else Parseable(listed, n - 1) + if listed[n - 1].raw.Some? && listed[n - 1].raw.value.Some? then 1 else 0
  }

  /** How many rows the first n listed reports insert. */
  function Written(listed: seq<Stored>, n: nat): nat
    requires n <= |listed|
  {
    if n == 0 then 0
    else Written(listed, n - 1) + match listed[n - 1].raw case Some(Some(rep)) => |Entries(rep)| case _ => 0
  }

  /** The counters mean what they say: documents that parse, … */
  lemma {:induction false} ParseableIs(listed: seq<Stored>, n: nat)
    requires n <= |listed|
    ensures Parseable(listed, n) == |set i | 0 <= i < n && listed[i].raw.Some? && listed[i].raw.value.Some?|
  {
    if n == 0 {
    } else {
      ParseableIs(listed, n - 1);
      var a := set i | 0 <= i < n - 1 && listed[i].raw.Some? && listed[i].raw.value.Some?;
      var b := set i | 0 <= i < n && listed[i].raw.Some? && listed[i].raw.value.Some?;
      assert b == a + if listed[n - 1].raw.Some? && listed[n - 1].raw.value.Some? then {n - 1} else {};
    }
  }

  /** … and rows: from an empty table as many are there as were written. */
  lemma {:induction false} WrittenIs(listed: seq<Stored>, n: nat)
    requires n <= |listed| && Ordered(listed)
    ensures |Rewritten([], listed, n)| == Written(listed, n)
    ensures forall r :: r in Rewritten([], listed, n) ==> exists i :: 0 <= i < n && listed[i].serial == r.serial
  {
    hide Entries;
    if n == 0 {
    } else {
      WrittenIs(listed, n - 1);
      var rows, x := Rewritten([], listed, n - 1), listed[n - 1];
      WithoutNone(rows, x.serial);
      hide Rewritten;
      forall r | r in rows ensures exists i :: 0 <= i < n && listed[i].serial == r.serial {
        var i :| 0 <= i < n - 1 && listed[i].serial == r.serial;
        assert 0 <= i < n;
      }
      match x.raw
      case Some(Some(rep)) => RewrittenStep(listed, n);
      case _ => RewrittenStep(listed, n);
    }
  }

  lemma RewrittenStep(listed: seq<Stored>, n: nat)
    requires 0 < n <= |listed|
    ensures Rewritten([], listed, n) == Write(Rewritten([], listed, n - 1), listed[n - 1])
  {
    hide Write;
  }

  lemma {:induction false} WithoutNone(rows: seq<AuthRow>, serial: int)
    requires forall r :: r in rows ==> r.serial != serial
    ensures Without(rows, serial) == rows
  {
    if rows == [] {
    } else {
      WithoutNone(rows[..|rows| - 1], serial);
    }
  }

  datatype Outcome = Complete(reports: nat, entries: nat, parseErrs: nat) | Aborted

  class AuthTable {
    var rows: seq<AuthRow>

    constructor ()
      ensures rows == []
    {
      rows := [];
    }

    /** DELETE and INSERTs in one transaction. */
    method SaveDKIMAuth(serial: int, entries: seq<Entry>, fate: Commit) returns (saved: bool)
      modifies this
      ensures saved == fate.Applied?
      ensures rows == if fate.NotApplied? then old(rows) else Replace(old(rows), serial, entries)
    {
      var work := Without(rows, serial);
      for i := 0 to |entries|
        invariant work == Without(old(rows), serial) + Rows(serial, entries[..i]) && rows == old(rows)
      {
        assert Rows(serial, entries[..i + 1]) == Rows(serial, entries[..i]) + [AuthRow(serial, entries[i])];
        work := work + [AuthRow(serial, entries[i])];
      }
      assert entries[..|entries|] == entries;
      if !fate.NotApplied? {
        rows := work;
      }
      return fate.Applied?;
    }

    method OnIngest(serial: int, rep: Report, fate: Commit)
      modifies this
      ensures rows ==
        if Entries(rep) != [] && !fate.NotApplied? then Replace(old(rows), serial, Entries(rep)) else old(rows)
    {
      var entries := DKIMAuthEntries(rep);
      if |entries| == 0 {
        return;
      }
      var _ := SaveDKIMAuth(serial, entries, fate);
    }

    /** Pages of `limit` documents by serial until a page comes back empty. saves(k)
        and lists(k) are the fates of the k-th save and the k-th page query; the first
        error ends the work. The listed documents are each processed once, in order,
        up to `through`. */
    method Backfill(reports: seq<Stored>, limit: nat, saves: nat -> Commit, lists: nat -> bool)
      returns (outcome: Outcome, ghost through: nat)
      requires limit > 0 && Ordered(reports) && forall i :: 0 <= i < |reports| ==> reports[i].serial > 0
      modifies this
      ensures through <= |All(reports, 0)| && rows == Rewritten(old(rows), All(reports, 0), through)
      ensures outcome.Complete? ==> through == |All(reports, 0)|
      ensures outcome.Complete? ==>
          outcome.reports == Parseable(All(reports, 0), through) && outcome.reports + outcome.parseErrs == through
      ensures outcome.Complete? ==> outcome.entries == Written(All(reports, 0), through)
      ensures (forall k :: saves(k).Applied?) && (forall k :: lists(k)) ==> outcome.Complete?
    {
      hide Entries, Replace, Pending;
      ghost var all := All(reports, 0);
      AllHaveRaw(reports);
      through := 0;
      var after, pages, calls: nat := 0, 0, 0;
      var done: nat, entries: nat, parseErrs: nat := 0, 0, 0;
      while true
        invariant through <= |all| && All(reports, after) == all[through..]
        invariant Progress(old(rows), rows, all, through, done, entries, parseErrs)
        decreases |all| - through
      {
        if !lists(pages) {
          return Aborted, through;
        }
        var rest := All(reports, after);
        var page := if |rest| <= limit then rest else rest[..limit];
        pages := pages + 1;
        if |page| == 0 {
          break;
        }
        ghost var base := through;
        for i := 0 to |page|
          invariant through == base + i <= |all|
          invariant i > 0 ==> after == all[through - 1].serial
          invariant Progress(old(rows), rows, all, through, done, entries, parseErrs)
        {
          var x := page[i];
          assert x == all[through];
          after := x.serial;
          match x.raw.value {
            case None =>
              parseErrs := parseErrs + 1;
            case Some(rep) =>
              var es := DKIMAuthEntries(rep);
              var saved := SaveDKIMAuth(x.serial, es, saves(calls));
              if !saved {
                return Aborted, if saves(calls).NotApplied? then through else through + 1;
              }
              calls := calls + 1;
              done, entries := done + 1, entries + |es|;
          }
          through := through + 1;
        }
        Resume(reports, |reports|, 0, through - 1);
      }
      outcome := Complete(done, entries, parseErrs);
    }
  }

  ghost predicate Progress(before: seq<AuthRow>, rows: seq<AuthRow>, all: seq<Stored>, n: nat, done: nat,
      entries: nat, parseErrs: nat)
    requires n <= |all|
  {
    && rows == Rewritten(before, all, n)
    && done == Parseable(all, n) && entries == Written(all, n) && done + parseErrs == n
  }

  lemma AllHaveRaw(reports: seq<Stored>)
    requires forall i :: 0 <= i < |reports| ==> reports[i].serial > 0
    ensures forall i :: 0 <= i < |All(reports, 0)| ==> All(reports, 0)[i].raw.Some?
  {
    PendingIn(reports, |reports|, 0);
    forall i | 0 <= i < |All(reports, 0)|
      ensures All(reports, 0)[i].raw.Some? { assert All(reports, 0)[i] in All(reports, 0); }
  }

  // --- what the backfill leaves ---

  /** What writing one report's rows does to another report's. */
  lemma WriteLeaves(rows: seq<AuthRow>, x: Stored, serial: int)
    ensures Of(Write(rows, x), serial) == match x.raw
      case Some(Some(rep)) => if x.serial == serial then Entries(rep) else Of(rows, serial)
      case _ => Of(rows, serial)
  {
    hide Entries, Replace, Of;
    match x.raw
    case Some(Some(rep)) => ReplaceIs(rows, x.serial, Entries(rep), serial);
    case _ =>
  }

  lemma {:induction false} RewrittenOther(rows: seq<AuthRow>, listed: seq<Stored>, n: nat, serial: int)
    requires n <= |listed| && forall i :: 0 <= i < n ==> listed[i].serial == serial ==>
        listed[i].raw.Some? && listed[i].raw.value.None?
    ensures Of(Rewritten(rows, listed, n), serial) == Of(rows, serial)
  {
    if n == 0 {
    } else {
      RewrittenOther(rows, listed, n - 1, serial);
      WriteLeaves(Rewritten(rows, listed, n - 1), listed[n - 1], serial);
    }
  }

  lemma {:induction false} RewrittenAt(rows: seq<AuthRow>, listed: seq<Stored>, n: nat, i: nat)
    requires i < n <= |listed| && Ordered(listed) && listed[i].raw.Some? && listed[i].raw.value.Some?
    ensures Of(Rewritten(rows, listed, n), listed[i].serial) == Entries(listed[i].raw.value.value)
  {
    var serial := listed[i].serial;
    WriteLeaves(Rewritten(rows, listed, n - 1), listed[n - 1], serial);
    if i == n - 1 {
    } else {
      RewrittenAt(rows, listed, n - 1, i);
    }
  }

  /** What a report's rows are after a complete backfill: its document's entries
      if it still has one that parses, otherwise whatever they were. */
  function Expected(before: seq<AuthRow>, x: Stored): seq<Entry> {
    match x.raw
    case Some(Some(rep)) => Entries(rep)
    case _ => Of(before, x.serial)
  }

  /** A complete backfill leaves every report with what is expected of it, and
      rows of serials outside the table untouched. */
  lemma BackfillIs(before: seq<AuthRow>, reports: seq<Stored>)
    requires Ordered(reports) && forall i :: 0 <= i < |reports| ==> reports[i].serial > 0
    ensures var after := Rewritten(before, All(reports, 0), |All(reports, 0)|);
      && (forall i :: 0 <= i < |reports| ==> Of(after, reports[i].serial) == Expected(before, reports[i]))
      && (forall serial :: (forall i :: 0 <= i < |reports| ==> reports[i].serial != serial) ==>
          Of(after, serial) == Of(before, serial))
  {
    var all := All(reports, 0);
    forall i | 0 <= i < |reports|
      ensures Of(Rewritten(before, all, |all|), reports[i].serial) == Expected(before, reports[i]) {
      BackfillAt(before, reports, i);
    }
    forall serial | forall i :: 0 <= i < |reports| ==> reports[i].serial != serial
      ensures Of(Rewritten(before, all, |all|), serial) == Of(before, serial)
    {
      forall j | 0 <= j < |all| ensures all[j].serial != serial { var k := ListedIn(reports, j); }
      RewrittenOther(before, all, |all|, serial);
    }
  }

  lemma ListedIn(reports: seq<Stored>, j: nat) returns (k: nat)
    requires j < |All(reports, 0)|
    ensures k < |reports| && reports[k] == All(reports, 0)[j] && reports[k].raw.Some?
  {
    PendingIn(reports, |reports|, 0);
    assert All(reports, 0)[j] in All(reports, 0);
    k :| 0 <= k < |reports| && reports[k] == All(reports, 0)[j];
  }

  lemma BackfillAt(before: seq<AuthRow>, reports: seq<Stored>, i: nat)
    requires Ordered(reports) && i < |reports| && reports[i].serial > 0
    ensures Of(Rewritten(before, All(reports, 0), |All(reports, 0)|), reports[i].serial) == Expected(before, reports[i])
  {
    var all := All(reports, 0);
    if reports[i].raw.Some? && reports[i].raw.value.Some? {
      PendingIn(reports, |reports|, 0);
      PendingOrdered(reports, |reports|, 0);
      assert reports[i] in reports[..|reports|] && reports[i] in all;
      var j :| 0 <= j < |all| && all[j] == reports[i];
      RewrittenAt(before, all, |all|, j);
    } else {
      forall j | 0 <= j < |all| && all[j].serial == reports[i].serial
        ensures all[j].raw.Some? && all[j].raw.value.None? {
        var k := ListedIn(reports, j);
        assert k == i;
      }
      RewrittenOther(before, all, |all|, reports[i].serial);
    }
  }

  /** Running it again changes no report's rows. */
  lemma BackfillTwice(before: seq<AuthRow>, reports: seq<Stored>, i: nat)
    requires Ordered(reports) && (forall k :: 0 <= k < |reports| ==> reports[k].serial > 0) && i < |reports|
    ensures var all := All(reports, 0);
            var once := Rewritten(before, all, |all|);
      Of(Rewritten(once, all, |all|), reports[i].serial) == Of(once, reports[i].serial)
  {
    var all := All(reports, 0);
    BackfillIs(before, reports);
    BackfillIs(Rewritten(before, all, |all|), reports);
  }

  /** The observers' work on a history of reports, each saved or failed. */
  function Observed(reports: seq<Stored>, n: nat, ok: nat -> bool): seq<AuthRow>
    requires n <= |reports|
  {
    if n == 0 then []
    else if ok(n - 1) then Observe(Observed(reports, n - 1, ok), reports[n - 1])
    else Observed(reports, n - 1, ok)
  }

  /** As the backfill, except that a report without signatures is left alone. */
  function Observe(rows: seq<AuthRow>, x: Stored): seq<AuthRow> {
    match x.raw
    case Some(Some(rep)) => if Entries(rep) != [] then Replace(rows, x.serial, Entries(rep)) else rows
    case _ => rows
  }

  lemma ObserveLeaves(rows: seq<AuthRow>, x: Stored, serial: int)
    ensures x.serial != serial ==> Of(Observe(rows, x), serial) == Of(rows, serial)
    ensures x.serial == serial && Of(rows, serial) == [] && x.raw.Some? && x.raw.value.Some? ==>
        Of(Observe(rows, x), serial) == Entries(x.raw.value.value)
  {
    hide Entries, Replace, Of;
    WriteLeaves(rows, x, serial);
  }

  lemma {:induction false} ObservedNew(reports: seq<Stored>, n: nat, ok: nat -> bool, serial: int)
    requires n <= |reports| && forall i :: 0 <= i < n ==> reports[i].serial != serial
    ensures Of(Observed(reports, n, ok), serial) == []
  {
    if n == 0 {
    } else {
      ObservedNew(reports, n - 1, ok, serial);
      ObserveLeaves(Observed(reports, n - 1, ok), reports[n - 1], serial);
    }
  }

  lemma ObservedStep(reports: seq<Stored>, n: nat, ok: nat -> bool)
    requires 0 < n <= |reports|
    ensures Observed(reports, n, ok)
      == if ok(n - 1) then Observe(Observed(reports, n - 1, ok), reports[n - 1]) else Observed(reports, n - 1, ok)
  {
  }

  lemma ObservedHere(reports: seq<Stored>, n: nat, ok: nat -> bool)
    requires 0 < n <= |reports| && Ordered(reports) && reports[n - 1].raw.Some? && reports[n - 1].raw.value.Some?
    ensures Of(Observed(reports, n, ok), reports[n - 1].serial)
        == if ok(n - 1) then Entries(reports[n - 1].raw.value.value) else []
  {
    ObservedStep(reports, n, ok);
    ObservedNew(reports, n - 1, ok, reports[n - 1].serial);
    hide Of, Observe, Entries, Observed, Ordered;
    ObserveLeaves(Observed(reports, n - 1, ok), reports[n - 1], reports[n - 1].serial);
  }

  lemma ObservedLater(reports: seq<Stored>, n: nat, ok: nat -> bool, serial: int)
    requires 0 < n <= |reports| && reports[n - 1].serial != serial
    ensures Of(Observed(reports, n, ok), serial) == Of(Observed(reports, n - 1, ok), serial)
  {
    ObservedStep(reports, n, ok);
    hide Of, Observe, Entries, Observed;
    ObserveLeaves(Observed(reports, n - 1, ok), reports[n - 1], serial);
  }

  /** Each report's rows from its observer: its entries, or none if the save failed. */
  lemma {:induction false} ObservedAt(reports: seq<Stored>, n: nat, ok: nat -> bool, i: nat)
    requires i < n <= |reports| && Ordered(reports) && reports[i].raw.Some? && reports[i].raw.value.Some?
    ensures Of(Observed(reports, n, ok), reports[i].serial) == if ok(i) then Entries(reports[i].raw.value.value) else []
  {
    if i == n - 1 {
      ObservedHere(reports, n, ok);
    } else {
      ObservedAt(reports, n - 1, ok, i);
      ObservedLater(reports, n, ok, reports[i].serial);
    }
  }

  /** While the documents are kept, the backfill agrees with what the observers
      wrote at ingest, and repairs exactly what they failed to write: a report's
      rows change if and only if its save failed and it had any. */
  lemma BackfillAgreesWithObservers(reports: seq<Stored>, ok: nat -> bool, i: nat)
    requires Ordered(reports) && (forall k :: 0 <= k < |reports| ==> reports[k].serial > 0)
    requires i < |reports| && reports[i].raw.Some? && reports[i].raw.value.Some?
    ensures var before := Observed(reports, |reports|, ok);
            var after := Rewritten(before, All(reports, 0), |All(reports, 0)|);
      && Of(after, reports[i].serial) == Entries(reports[i].raw.value.value)
      && (Of(after, reports[i].serial) == Of(before, reports[i].serial)
          <==> ok(i) || Entries(reports[i].raw.value.value) == [])
  {
    BackfillIs(Observed(reports, |reports|, ok), reports);
    ObservedAt(reports, |reports|, ok, i);
  }
}
