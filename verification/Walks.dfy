/** What the observers behind an emission, and the two live backfills, do to their
    tables, and what a caller that is not interrupted gets done. */
module Walks {
  import opened Reports
  import opened Ingest
  import opened Sources
  import opened Fanout
  import opened Inventory
  import Selectors

  /** When a report's row is inserted and its emission starts, its caller has all its hits
      and its selector rows before it, and nothing is lost. */
  lemma EmissionStartsWalk(j: Joint, tid: Tid, e: Effect)
    requires var n, t := |j.core.db.reports|, Do(j.core, Work(tid, e));
      && !Blocked(j, Work(tid, e)) && |t.db.reports| == n + 1
      && tid in t.tasks && t.tasks[tid].emitting == Some(n)
    ensures var n, k := |j.core.db.reports|, Step(j, Core(Work(tid, e)));
            var row := k.core.db.reports[n];
      && k.core == Do(j.core, Work(tid, e))
      && k.walks == j.walks + [Walk(tid, n, ObservedHits(row, |row.report.records|), true)]
      && k.ops == j.ops && k.lost == j.lost
      && k.book.fates == j.book.fates + [Pending] && k.book.table == j.book.table
  {
    hide Do;
  }

  /** An upsert of the walk goes into the table, unless it fails. */
  lemma UpsertWrites(j: Joint, w: nat, now: int, fate: Commit)
    requires CanUpsert(j, w)
    ensures var k, hit, rest := Step(j, Fanout.Event.Upsert(w, now, fate)), j.walks[w].todo[0], j.walks[w].todo[1..];
      && k.walks == j.walks[w := j.walks[w].(todo := rest)] && k.core == j.core && k.book == j.book
      && Fanout.Table(k) == (if fate.NotApplied? then Fanout.Table(j) else Sources.Upsert(Fanout.Table(j), hit, now))
      && k.lost == (if fate.NotApplied? then j.lost + [hit] else j.lost)
  {
    if !fate.NotApplied? {
      assert (j.ops + [Observe(j.walks[w].todo[0], now, fate.Applied?)])[..|j.ops|] == j.ops;
    }
  }

  /** A batch of the domain_source backfill merges the records stored by then. */
  lemma FillWrites(j: Joint, lo: int, hi: int)
    ensures var k := Step(j, Fill(lo, hi));
      k.(ops := j.ops) == j && Fanout.Table(k) == MergeInto(Fanout.Table(j), GroupBy(Join(j.core.db.reports), lo, hi))
  {
    var op := Import(Join(j.core.db.reports), lo, hi);
    assert (j.ops + [op])[..|j.ops|] == j.ops;
    hide GroupBy, MergeInto, Join;
  }

  /** The save at the end of a walk gives the report its rows, unless it fails or there
      are none, and leaves those of every other serial alone. */
  lemma AuthWrites(j: Joint, w: nat, fate: Commit, serial: int)
    requires CanSaveAuth(j, w)
    ensures var k, row := Step(j, SaveAuth(w, fate)), j.core.db.reports[j.walks[w].i];
            var writes := !fate.NotApplied? && Wanted(row) != [];
      && k.walks == j.walks[w := j.walks[w].(auth := false)] && k.core == j.core && k.ops == j.ops && k.lost == j.lost
      && Selectors.Of(k.book.table, serial)
         == if writes && serial == row.serial then Wanted(row) else Selectors.Of(j.book.table, serial)
  {
    var row := j.core.db.reports[j.walks[w].i];
    Selectors.ReplaceIs(j.book.table, row.serial, Wanted(row), serial);
    hide Selectors.Replace, Selectors.Of, Selectors.Entries;
  }

  /** So does the backfill of one report, whatever was there. */
  lemma FillAuthWrites(j: Joint, i: nat, serial: int)
    requires CanFillAuth(j, i)
    ensures var k, row := Step(j, FillAuth(i)), j.core.db.reports[i];
      && k.(book := j.book) == j && k.book.filled[i]
      && Selectors.Of(k.book.table, serial)
         == if serial == row.serial then Wanted(row) else Selectors.Of(j.book.table, serial)
  {
    var row := j.core.db.reports[i];
    Selectors.ReplaceIs(j.book.table, row.serial, Wanted(row), serial);
    hide Selectors.Replace, Selectors.Of, Selectors.Entries;
  }

  /** The caller's own steps, none of which fails. */
  predicate OwnEvent(e: Event, w: nat, now: int) {
    e == Fanout.Event.Upsert(w, now, Applied) || e == SaveAuth(w, Applied)
  }

  /** The upserts of a list of hits, in order. */
  function UpsertAll(t: Sources.Table, hits: seq<Hit>, now: int): Sources.Table
    decreases |hits|
  {
    if hits == [] then t else UpsertAll(Sources.Upsert(t, hits[0], now), hits[1..], now)
  }

  lemma {:induction false} RunJointConcat(j: Joint, a: seq<Event>, e: Event)
    ensures RunJoint(j, a + [e]) == Step(RunJoint(j, a), e)
  {
    hide Step;
    assert (a + [e])[..|a|] == a;
  }

  lemma {:induction false} RunJointCons(j: Joint, e: Event, es: seq<Event>)
    ensures RunJoint(j, [e] + es) == RunJoint(Step(j, e), es)
  {
    hide Step;
    if es == [] {
      NoEvents(j);
      NoEvents(Step(j, e));
      hide RunJoint;
      assert [e] + es == [] + [e];
      RunJointConcat(j, [], e);
    } else {
      hide RunJoint;
      var n := |es| - 1;
      var front := [e] + es[..n];
      RunJointCons(j, e, es[..n]);
      assert [e] + es == front + [es[n]] && es == es[..n] + [es[n]];
      RunJointConcat(j, front, es[n]);
      RunJointConcat(Step(j, e), es[..n], es[n]);
    }
  }

  lemma NoEvents(j: Joint)
    ensures RunJoint(j, []) == j
  {
  }

  /** A caller whose statements succeed upserts every hit it has left, in order, and
      loses none. */
  lemma {:induction false} UpsertsEnd(j: Joint, w: nat, now: int) returns (es: seq<Event>)
    requires w < |j.walks| && j.walks[w].tid in j.core.tasks && j.core.tasks[j.walks[w].tid].emitting.None?
    ensures forall k :: 0 <= k < |es| ==> OwnEvent(es[k], w, now)
    ensures var k := RunJoint(j, es);
      && k.core == j.core && k.book == j.book && k.lost == j.lost
      && k.walks == j.walks[w := j.walks[w].(todo := [])]
      && Fanout.Table(k) == UpsertAll(Fanout.Table(j), j.walks[w].todo, now)
    decreases |j.walks[w].todo|
  {
    if j.walks[w].todo == [] {
      es := [];
      assert j.walks[w := j.walks[w].(todo := [])] == j.walks;
    } else {
      var e := Fanout.Event.Upsert(w, now, Applied);
      UpsertWrites(j, w, now, Applied);
      var more := UpsertsEnd(Step(j, e), w, now);
      RunJointCons(j, e, more);
      es := [e] + more;
      hide Step, RunJoint, Fanout.Table, Sources.Upsert;
    }
  }

  /** And then saves the report's selector rows: a report whose observers are not cut off
      is in both tables with all it has. */
  lemma WalkCanFinish(j: Joint, w: nat, now: int) returns (es: seq<Event>)
    requires w < |j.walks| && j.walks[w].tid in j.core.tasks && j.core.tasks[j.walks[w].tid].emitting.None?
    requires j.walks[w].auth && j.walks[w].i < |j.core.db.reports| == |j.book.fates| == |j.book.filled|
    ensures forall k :: 0 <= k < |es| ==> OwnEvent(es[k], w, now)
    ensures var k, row := RunJoint(j, es), j.core.db.reports[j.walks[w].i];
      && k.lost == j.lost && Fanout.Table(k) == UpsertAll(Fanout.Table(j), j.walks[w].todo, now)
      && k.walks == j.walks[w := j.walks[w].(todo := [], auth := false)]
      && (Wanted(row) != [] ==> Selectors.Of(k.book.table, row.serial) == Wanted(row))
  {
    var before := UpsertsEnd(j, w, now);
    var j1, e := RunJoint(j, before), SaveAuth(w, Applied);
    es := before + [e];
    RunJointConcat(j, before, e);
    hide RunJoint;
    var row := j.core.db.reports[j.walks[w].i];
    AuthWrites(j1, w, Applied, row.serial);
    hide Step;
  }
}
