/** The observers behind one emission: after the rollup has had its turn, the same
    caller walks through the report's records and upserts domain_source, one
    statement at a time, then saves the report's dkim_auth rows, and only then goes on
    to its next document. The ingest machine runs underneath, so everything proved of
    its runs holds here too. */
module Fanout {
  import opened Reports
  import opened Ingest
  import opened IngestTheorems
  import opened Sources
  import Senders
  import Rollup
  import Selectors

  /** What a caller has left to do for report i: upserts, then the dkim_auth rows. */
  datatype Walk = Walk(tid: Tid, i: nat, todo: seq<Hit>, auth: bool)

  /** What became of the one save of a report's dkim_auth rows. */
  datatype AuthFate = Pending | Written | Missed

  /** The dkim_auth table; per report the fate of its save, and whether the backfill
      has rewritten its rows. */
  datatype Book = Book(table: seq<Selectors.AuthRow>, fates: seq<AuthFate>, filled: seq<bool>)

  /** ops is the history of domain_source, lost the hits nobody will ever upsert. */
  datatype Joint = Joint(core: State, walks: seq<Walk>, ops: seq<Op>, lost: seq<Hit>, book: Book)

  datatype Event =
    | Core(a: Action)
    | Upsert(w: nat, now: int, fate: Commit)
    | SaveAuth(w: nat, fate: Commit)
    | Fill(lo: int, hi: int)                 // a batch of the domain_source backfill
    | FillAuth(i: nat)                       // one report of the dkim_auth backfill

  const START := Joint(INIT, [], [], [], Book([], [], []))

  predicate Walking(j: Joint, tid: Tid) {
    exists w :: 0 <= w < |j.walks| && j.walks[w].tid == tid && (j.walks[w].todo != [] || j.walks[w].auth)
  }

  /** A caller that is still walking takes no other step. */
  predicate Blocked(j: Joint, a: Action) {
    match a
    case Work(tid, _) => tid in j.core.tasks && j.core.tasks[tid].emitting.None? && Walking(j, tid)
    case Finish(tid) => Walking(j, tid)
    case _ => false
  }

  function Hits(row: Row): seq<Hit> { ObservedHits(row, |row.report.records|) }

  function Flat(walks: seq<Walk>): seq<Hit> {
    if walks == [] then [] else Flat(walks[..|walks| - 1]) + walks[|walks| - 1].todo
  }

  /** What a step of the ingest machine means for the two tables: a row whose
      emission starts gets a walk, one that is never emitted loses its hits and its
      save, and a crash ends all walks. */
  function After(j: Joint, a: Action): Joint { Follow(j, a, Do(j.core, a)) }

  function Follow(j: Joint, a: Action, core: State): Joint {
    var n := |j.core.db.reports|;
    var j1 := j.(core := core);
    if a.Crash? then
      j1.(walks := [], lost := j.lost + Flat(j.walks), book := j.book.(fates := Cut(j.book.fates)))
    else if a.Work? && |core.db.reports| == n + 1 then
      if a.tid in core.tasks && core.tasks[a.tid].emitting == Some(n)
      then j1.(walks := j.walks + [Walk(a.tid, n, Hits(core.db.reports[n]), true)], book := Open(j.book, Pending))
      else j1.(lost := j.lost + Hits(core.db.reports[n]), book := Open(j.book, Missed))
    else j1
  }

  function Open(book: Book, fate: AuthFate): Book {
    book.(fates := book.fates + [fate], filled := book.filled + [false])
  }

  function Cut(fates: seq<AuthFate>): seq<AuthFate> {
    seq(|fates|, i requires 0 <= i < |fates| => if fates[i].Pending? then Missed else fates[i])
  }

  /** The rollup of the walker's report has been dealt with. */
  predicate CanUpsert(j: Joint, w: nat) {
    && w < |j.walks| && j.walks[w].todo != []
    && j.walks[w].tid in j.core.tasks && j.core.tasks[j.walks[w].tid].emitting.None?
  }

  function DoUpsert(j: Joint, w: nat, now: int, fate: Commit): Joint
    requires CanUpsert(j, w)
  {
    var walk := j.walks[w];
    var j1 := j.(walks := j.walks[w := walk.(todo := walk.todo[1..])]);
    if fate.NotApplied? then j1.(lost := j.lost + [walk.todo[0]])
    else j1.(ops := j.ops + [Observe(walk.todo[0], now, fate.Applied?)])
  }

  /** All upserts of the walk have been tried. */
  predicate CanSaveAuth(j: Joint, w: nat) {
    && w < |j.walks| && j.walks[w].todo == [] && j.walks[w].auth
    && j.walks[w].tid in j.core.tasks && j.core.tasks[j.walks[w].tid].emitting.None?
    && j.walks[w].i < |j.core.db.reports| && j.walks[w].i < |j.book.fates|
  }

  /** The selectors observer: a report without signatures needs no save. */
  function DoSaveAuth(j: Joint, w: nat, fate: Commit): Joint
    requires CanSaveAuth(j, w)
  {
    var i := j.walks[w].i;
    var row := j.core.db.reports[i];
    var entries := Selectors.Entries(row.report);
    var j1 := j.(walks := j.walks[w := j.walks[w].(auth := false)]);
    if entries == [] then j1.(book := j.book.(fates := j.book.fates[i := Written]))
    else if fate.NotApplied? then j1.(book := j.book.(fates := j.book.fates[i := Missed]))
    else j1.(book := j.book.(fates := j.book.fates[i := Written],
                             table := Selectors.Replace(j.book.table, row.serial, entries)))
  }

  predicate CanFillAuth(j: Joint, i: nat) { i < |j.core.db.reports| && i < |j.book.filled| }

  function DoFillAuth(j: Joint, i: nat): Joint
    requires CanFillAuth(j, i)
  {
    var row := j.core.db.reports[i];
    j.(book := j.book.(filled := j.book.filled[i := true],
                       table := Selectors.Replace(j.book.table, row.serial, Selectors.Entries(row.report))))
  }

  function Step(j: Joint, e: Event): Joint {
    match e
    case Core(a) => if Blocked(j, a) then j else After(j, a)
    case Upsert(w, now, fate) => if CanUpsert(j, w) then DoUpsert(j, w, now, fate) else j
    case SaveAuth(w, fate) => if CanSaveAuth(j, w) then DoSaveAuth(j, w, fate) else j
    case Fill(lo, hi) => j.(ops := j.ops + [Import(Join(j.core.db.reports), lo, hi)])
    case FillAuth(i) => if CanFillAuth(j, i) then DoFillAuth(j, i) else j
  }

  function RunJoint(j: Joint, es: seq<Event>): Joint {
    if es == [] then j else Step(RunJoint(j, es[..|es| - 1]), es[|es| - 1])
  }

  // --- counts ---

  /** The message counts of one pair. */
  datatype Volume = Volume(msgs: int, aligned: int)

  function Add(a: Volume, b: Volume): Volume { Volume(a.msgs + b.msgs, a.aligned + b.aligned) }

  function VolumeOf(hits: seq<Hit>, k: Pair): Volume { Volume(Msgs(hits, k), AlignedMsgs(hits, k)) }

  function RowVolume(row: Option<SourceRow>): Volume {
    match row
    case None => Volume(0, 0)
    case Some(r) => Volume(r.msgs, r.aligned)
  }

  /** The hits the observers' upserts have applied. */
  function Upserted(ops: seq<Op>): seq<Hit> {
    if ops == [] then []
    else Upserted(ops[..|ops| - 1]) + if ops[|ops| - 1].Observe? then [ops[|ops| - 1].hit] else []
  }

  /** What the backfill's batches have added. */
  function Filled(ops: seq<Op>, k: Pair): Volume {
    if ops == [] then Volume(0, 0)
    else
      var last := ops[|ops| - 1];
      Add(Filled(ops[..|ops| - 1], k),
          if last.Import? then RowVolume(Sources.Aggregate(last.hits, last.lo, last.hi, k)) else Volume(0, 0))
  }

  function Table(j: Joint): Sources.Table { ApplyAll(map[], j.ops) }

  lemma VolumeConcat(a: seq<Hit>, b: seq<Hit>, k: Pair)
    ensures VolumeOf(a + b, k) == Add(VolumeOf(a, k), VolumeOf(b, k))
  {
    SumsConcat(a, b, k);
  }

  lemma NoVolume(k: Pair)
    ensures Msgs([], k) == 0 && AlignedMsgs([], k) == 0 && VolumeOf([], k) == Volume(0, 0)
  {
  }

  lemma OneVolume(h: Hit, k: Pair)
    ensures VolumeOf([h], k) == if h.pair == k then Volume(h.count, h.AlignedCount()) else Volume(0, 0)
  {
    NoVolume(k);
    assert [h][..0] == [];
    assert Msgs([h], k) == if h.pair == k then h.count else 0;
    assert AlignedMsgs([h], k) == if h.pair == k then h.AlignedCount() else 0;
  }

  lemma UpsertVolume(t: Sources.Table, h: Hit, now: int, k: Pair)
    ensures RowVolume(Get(Sources.Upsert(t, h, now), k)) == Add(RowVolume(Get(t, k)), VolumeOf([h], k))
  {
    OneVolume(h, k);
    hide VolumeOf;
    AddUp(RowVolume(Get(t, k)), Volume(0, 0), Volume(0, 0), Volume(0, 0));
    if h.pair == k {
      var before, after := RowVolume(Get(t, k)), RowVolume(Get(Sources.Upsert(t, h, now), k));
      assert after.msgs == before.msgs + h.count && after.aligned == before.aligned + h.AlignedCount();
      assert after == Volume(after.msgs, after.aligned);
    }
  }

  lemma MergeVolume(t: Sources.Table, g: Sources.Table, k: Pair)
    ensures RowVolume(Get(MergeInto(t, g), k)) == Add(RowVolume(Get(t, k)), RowVolume(Get(g, k)))
  {
    MergeIntoGet(t, g, k);
  }

  lemma ApplyVolume(t: Sources.Table, op: Op, k: Pair)
    ensures op.Observe? ==> RowVolume(Get(Apply(t, op), k)) == Add(RowVolume(Get(t, k)), VolumeOf([op.hit], k))
    ensures op.Import? ==>
      RowVolume(Get(Apply(t, op), k))
        == Add(RowVolume(Get(t, k)), RowVolume(Sources.Aggregate(op.hits, op.lo, op.hi, k)))
  {
    match op
    case Observe(h, now, _) => UpsertVolume(t, h, now, k);
    case Import(hits, lo, hi) =>
      MergeVolume(t, GroupBy(hits, lo, hi), k);
      GroupByGet(hits, lo, hi, k);
  }

  lemma {:induction false} TableVolume(ops: seq<Op>, k: Pair)
    ensures RowVolume(Get(ApplyAll(map[], ops), k)) == Add(VolumeOf(Upserted(ops), k), Filled(ops, k))
  {
    if ops == [] {
    } else {
      var front, last := ops[..|ops| - 1], ops[|ops| - 1];
      TableVolume(front, k);
      ApplyVolume(ApplyAll(map[], front), last, k);
      VolumeConcat(Upserted(front), if last.Observe? then [last.hit] else [], k);
      NoVolume(k);
      HistoryStep(ops, k);
      hide *;
      AddUp(VolumeOf(Upserted(front), k), Filled(front, k),
            VolumeOf(if last.Observe? then [last.hit] else [], k),
            if last.Import? then RowVolume(Sources.Aggregate(last.hits, last.lo, last.hi, k)) else Volume(0, 0));
    }
  }

  lemma HistoryStep(ops: seq<Op>, k: Pair)
    requires ops != []
    ensures var front, last := ops[..|ops| - 1], ops[|ops| - 1];
      && ApplyAll(map[], ops) == Apply(ApplyAll(map[], front), last)
      && Upserted(ops) == Upserted(front) + (if last.Observe? then [last.hit] else [])
      && Filled(ops, k) == Add(Filled(front, k),
           if last.Import? then RowVolume(Sources.Aggregate(last.hits, last.lo, last.hi, k)) else Volume(0, 0))
  {
  }

  lemma AddUp(a: Volume, b: Volume, c: Volume, d: Volume)
    ensures Add(Add(a, c), Add(b, d)) == Add(Add(a, b), Add(c, d))
    ensures Add(a, Volume(0, 0)) == a
  {
  }

  // --- what every step keeps ---

  /** Every record of every stored report that has an address is applied, on the
      way, or lost, exactly once. */
  ghost predicate Accounted(j: Joint) {
    multiset(Observation(j.core.db.reports)) == multiset(Upserted(j.ops)) + multiset(j.lost) + multiset(Flat(j.walks))
  }

  lemma FlatAppend(walks: seq<Walk>, walk: Walk)
    ensures Flat(walks + [walk]) == Flat(walks) + walk.todo
  {
    assert (walks + [walk])[..|walks|] == walks;
  }

  lemma {:induction false} FlatPop(walks: seq<Walk>, w: nat)
    requires w < |walks| && walks[w].todo != []
    ensures multiset(Flat(walks))
         == multiset(Flat(walks[w := walks[w].(todo := walks[w].todo[1..])])) + multiset{walks[w].todo[0]}
  {
    hide Flat;
    var n := |walks| - 1;
    var front, todo := walks[..n], walks[w].todo;
    var popped := walks[w := walks[w].(todo := todo[1..])];
    FlatLast(walks);
    FlatLast(popped);
    HeadApart(todo);
    if w == n {
      assert popped[..n] == front && popped[n].todo == todo[1..];
    } else {
      assert front[w] == walks[w] && popped[n] == walks[n];
      assert popped[..n] == front[w := front[w].(todo := todo[1..])];
      FlatPop(front, w);
    }
  }

  lemma HeadApart(todo: seq<Hit>)
    requires todo != []
    ensures multiset(todo) == multiset(todo[1..]) + multiset{todo[0]}
  {
    assert todo == [todo[0]] + todo[1..];
  }

  lemma FlatLast(walks: seq<Walk>)
    requires walks != []
    ensures multiset(Flat(walks)) == multiset(Flat(walks[..|walks| - 1])) + multiset(walks[|walks| - 1].todo)
  {
  }

  lemma ObservationAppend(rows: seq<Row>, row: Row)
    ensures Observation(rows + [row]) == Observation(rows) + Hits(row)
  {
    assert (rows + [row])[..|rows|] == rows;
  }

  lemma UpsertedAppend(ops: seq<Op>, op: Op)
    ensures Upserted(ops + [op]) == Upserted(ops) + if op.Observe? then [op.hit] else []
  {
    assert (ops + [op])[..|ops|] == ops;
  }

  lemma UpsertAccounts(j: Joint, w: nat, now: int, fate: Commit)
    requires Accounted(j) && CanUpsert(j, w)
    ensures Accounted(DoUpsert(j, w, now, fate))
  {
    FlatPop(j.walks, w);
    UpsertedAppend(j.ops, Observe(j.walks[w].todo[0], now, fate.Applied?));
    hide Flat, Upserted, Observation;
    assert multiset(j.lost + [j.walks[w].todo[0]]) == multiset(j.lost) + multiset{j.walks[w].todo[0]};
  }

  /** A step adds at most one row to report, and only a caller's step does. */
  lemma RowsGrowByOne(s: State, a: Action)
    requires FlightInv(s)
    ensures var s' := Do(s, a);
      s'.db.reports == s.db.reports
      || (a.Work? && |s'.db.reports| == |s.db.reports| + 1 && s'.db.reports[..|s.db.reports|] == s.db.reports)
  {
    if a.Work? && a.tid in s.tasks {
      if s.tasks[a.tid].emitting.None? {
        WorkOnDocSteps(s, a.tid, a.effect);
      } else {
        assert Emits(s, a.tid, s.tasks[a.tid].emitting.value);
      }
    }
  }

  lemma CrashAccounts(j: Joint, core: State)
    requires Accounted(j) && core.db.reports == j.core.db.reports
    ensures forall book :: Accounted(j.(core := core, walks := [], lost := j.lost + Flat(j.walks), book := book))
  {
    hide Observation, Upserted;
    assert Flat([]) == [];
  }

  lemma InsertAccounts(j: Joint, core: State, row: Row, walk: Walk)
    requires Accounted(j) && core.db.reports == j.core.db.reports + [row] && walk.todo == Hits(row)
    ensures forall book :: Accounted(j.(core := core, walks := j.walks + [walk], book := book))
    ensures forall book :: Accounted(j.(core := core, lost := j.lost + Hits(row), book := book))
  {
    ObservationAppend(j.core.db.reports, row);
    FlatAppend(j.walks, walk);
    hide Observation, Upserted, Flat, Hits;
  }

  lemma CoreAccounts(j: Joint, a: Action)
    requires Inv(j.core) && Accounted(j)
    ensures Accounted(After(j, a))
  {
    RowsGrowByOne(j.core, a);
    FollowAccounts(j, a, Do(j.core, a));
  }

  lemma FollowAccounts(j: Joint, a: Action, core: State)
    requires Accounted(j)
    requires var rows, rows' := j.core.db.reports, core.db.reports;
      rows' == rows || (a.Work? && |rows'| == |rows| + 1 && rows'[..|rows|] == rows)
    ensures Accounted(Follow(j, a, core))
  {
    var rows, rows' := j.core.db.reports, core.db.reports;
    hide Accounted, Flat, Hits;
    if a.Crash? {
      CrashAccounts(j, core);
    } else if rows' != rows {
      assert rows' == rows + [rows'[|rows|]];
      InsertAccounts(j, core, rows'[|rows|], Walk(a.tid, |rows|, Hits(rows'[|rows|]), true));
    } else {
      SameAccounts(j, core);
    }
  }

  lemma SameAccounts(j: Joint, core: State)
    requires Accounted(j) && core.db.reports == j.core.db.reports
    ensures Accounted(j.(core := core))
  {
  }

  lemma FillAccounts(j: Joint, op: Op)
    requires Accounted(j) && op.Import?
    ensures Accounted(j.(ops := j.ops + [op]))
  {
    UpsertedAppend(j.ops, op);
  }

  lemma FillAuthAccounts(j: Joint, i: nat)
    requires Accounted(j) && CanFillAuth(j, i)
    ensures Accounted(DoFillAuth(j, i))
  {
  }

  lemma {:induction false} FlatSame(walks: seq<Walk>, walks': seq<Walk>)
    requires |walks| == |walks'| && forall w :: 0 <= w < |walks| ==> walks[w].todo == walks'[w].todo
    ensures Flat(walks) == Flat(walks')
  {
    if walks == [] {
    } else {
      FlatSame(walks[..|walks| - 1], walks'[..|walks| - 1]);
    }
  }

  lemma SaveAuthAccounts(j: Joint, w: nat, fate: Commit)
    requires Accounted(j) && CanSaveAuth(j, w)
    ensures Accounted(DoSaveAuth(j, w, fate))
  {
    FlatSame(j.walks, DoSaveAuth(j, w, fate).walks);
  }

  lemma StepAccounts(j: Joint, e: Event)
    requires Inv(j.core) && Accounted(j)
    ensures Inv(Step(j, e).core) && Accounted(Step(j, e))
  {
    hide Accounted, Inv, Do;
    match e
    case Core(a) =>
      StepKeepsInv(j.core, a);
      CoreAccounts(j, a);
    case Upsert(w, now, fate) => if CanUpsert(j, w) { UpsertAccounts(j, w, now, fate); }
    case SaveAuth(w, fate) => if CanSaveAuth(j, w) { SaveAuthAccounts(j, w, fate); }
    case Fill(lo, hi) => FillAccounts(j, Import(Join(j.core.db.reports), lo, hi));
    case FillAuth(i) => if CanFillAuth(j, i) { FillAuthAccounts(j, i); }
  }

  lemma {:induction false} RunAccounts(es: seq<Event>)
    ensures var j := RunJoint(START, es); Inv(j.core) && Accounted(j)
  {
    if es == [] {
      InitInv();
    } else {
      RunAccounts(es[..|es| - 1]);
      StepAccounts(RunJoint(START, es[..|es| - 1]), es[|es| - 1]);
    }
  }

  // --- theorems ---

  ghost predicate ReachableJoint(j: Joint) {
    exists es: seq<Event> :: j == RunJoint(START, es)
  }

  lemma {:induction false} CoreRuns(es: seq<Event>) returns (acts: seq<Action>)
    ensures RunJoint(START, es).core == Run(INIT, acts)
  {
    if es == [] {
      acts := [];
    } else {
      acts := CoreRuns(es[..|es| - 1]);
      var e := es[|es| - 1];
      if e.Core? && !Blocked(RunJoint(START, es[..|es| - 1]), e.a) {
        RunSnoc(INIT, acts, e.a);
        acts := acts + [e.a];
      }
    }
  }

  /** What is under it is a run of the ingest machine. */
  lemma CoreIsReachable(j: Joint)
    requires ReachableJoint(j)
    ensures Reachable(j.core)
  {
    var es: seq<Event> :| j == RunJoint(START, es);
    var acts := CoreRuns(es);
  }

  /** The messages of the stored reports from a pair, and the aligned ones, record by
      record. */
  function Recorded(rows: seq<Row>, k: Pair): Volume {
    Volume(Senders.SentFor(rows, |rows|, k, false), Senders.SentFor(rows, |rows|, k, true))
  }

  lemma RecordedVolume(rows: seq<Row>, k: Pair)
    ensures VolumeOf(Observation(rows), k) == Recorded(rows, k)
  {
    assert rows[..|rows|] == rows;
    Senders.HistorySums(rows, |rows|, k);
  }

  /** In every reachable state, for every pair and both counters: what domain_source
      holds, plus what is still on the way, plus what was lost to a failed upsert, an
      unacknowledged commit or a crash, is the sum over the stored records of the pair
      plus what backfill batches have added. */
  lemma SourceConservation(j: Joint, es: seq<Event>, k: Pair)
    requires j == RunJoint(START, es)
    ensures
      var stored, filled := Recorded(j.core.db.reports, k), Filled(j.ops, k);
      var held, flying, lost := RowVolume(Get(Table(j), k)), VolumeOf(Flat(j.walks), k), VolumeOf(j.lost, k);
      && stored.msgs + filled.msgs == held.msgs + flying.msgs + lost.msgs
      && stored.aligned + filled.aligned == held.aligned + flying.aligned + lost.aligned
  {
    RunAccounts(es);
    RecordedVolume(j.core.db.reports, k);
    TableVolume(j.ops, k);
    PartsVolume(j, k);
    hide *;
    Balance(VolumeOf(Upserted(j.ops), k), Filled(j.ops, k), VolumeOf(j.lost, k), VolumeOf(Flat(j.walks), k));
  }

  lemma Balance(up: Volume, filled: Volume, lost: Volume, flying: Volume)
    ensures
      var stored, held := Add(up, Add(lost, flying)), Add(up, filled);
      && stored.msgs + filled.msgs == held.msgs + flying.msgs + lost.msgs
      && stored.aligned + filled.aligned == held.aligned + flying.aligned + lost.aligned
  {
  }

  lemma RebuildVolume(rows: seq<Row>, max: int, k: Pair)
    requires Parsed(rows, max)
    ensures RowVolume(Get(GroupBy(Join(rows), 0, max), k)) == VolumeOf(Observation(rows), k)
  {
    SameHistory(rows, max);
    var hits := Join(rows);
    assert forall i :: 0 <= i < |hits| ==> hits[i] in hits;
    AggregateSums(hits, max, k);
    GroupByGet(hits, 0, max, k);
  }

  lemma PartsVolume(j: Joint, k: Pair)
    requires Accounted(j)
    ensures VolumeOf(Observation(j.core.db.reports), k)
         == Add(VolumeOf(Upserted(j.ops), k), Add(VolumeOf(j.lost, k), VolumeOf(Flat(j.walks), k)))
  {
    var up, lost, flying := Upserted(j.ops), j.lost, Flat(j.walks);
    VolumeConcat(lost, flying, k);
    VolumeConcat(up, lost + flying, k);
    SumsPermute(Observation(j.core.db.reports), up + (lost + flying), k);
  }

  /** When no walk is at work, nothing was lost and no backfill ran on the live
      system, domain_source has the sums over the stored records, which are those of
      one GROUP BY … */
  lemma SourcesExactAtRest(j: Joint, es: seq<Event>, max: int, k: Pair)
    requires j == RunJoint(START, es) && forall i :: 0 <= i < |es| ==> !es[i].Fill?
    requires Parsed(j.core.db.reports, max) && Flat(j.walks) == [] && j.lost == []
    ensures RowVolume(Get(Table(j), k)) == Recorded(j.core.db.reports, k)
        == RowVolume(Get(GroupBy(Join(j.core.db.reports), 0, max), k))
  {
    hide *;
    SourceConservation(j, es, k);
    NothingFilled(es, k);
    AtRest(Recorded(j.core.db.reports, k), RowVolume(Get(Table(j), k)), k);
    RecordedVolume(j.core.db.reports, k);
    RebuildVolume(j.core.db.reports, max, k);
  }

  lemma AtRest(stored: Volume, held: Volume, k: Pair)
    requires
      var nothing := VolumeOf([], k);
      && stored.msgs == held.msgs + nothing.msgs + nothing.msgs
      && stored.aligned == held.aligned + nothing.aligned + nothing.aligned
    ensures stored == held
  {
    NoVolume(k);
    assert stored.msgs == held.msgs && stored.aligned == held.aligned;
  }

  /** … and without a live rebuild dmarc_agg_daily is the rebuilt table exactly when
      every upsert was applied. */
  lemma RollupExactIff(es: seq<Event>)
    requires Core(Backfill) !in es
    ensures var s := RunJoint(START, es).core;
      s.db.daily == Rollup.Rebuild(s.db.reports) <==> forall i :: 0 <= i < |s.fates| ==> s.fates[i].Emitted?
  {
    var acts := CoreRunsWithoutBackfill(es);
    hide *;
    IncrementalExactIffAllEmitted(acts);
  }

  lemma {:induction false} NothingFilled(es: seq<Event>, k: Pair)
    requires forall i :: 0 <= i < |es| ==> !es[i].Fill?
    ensures Filled(RunJoint(START, es).ops, k) == Volume(0, 0)
  {
    if es == [] {
    } else {
      NothingFilled(es[..|es| - 1], k);
      var j, e := RunJoint(START, es[..|es| - 1]), es[|es| - 1];
      if Step(j, e).ops != j.ops {
        var op := Observe(j.walks[e.w].todo[0], e.now, e.fate.Applied?);
        assert Step(j, e).ops == j.ops + [op];
        assert (j.ops + [op])[..|j.ops|] == j.ops;
      }
    }
  }

  lemma {:induction false} CoreRunsWithoutBackfill(es: seq<Event>) returns (acts: seq<Action>)
    requires Core(Backfill) !in es
    ensures RunJoint(START, es).core == Run(INIT, acts) && Backfill !in acts
  {
    if es == [] {
      acts := [];
    } else {
      acts := CoreRunsWithoutBackfill(es[..|es| - 1]);
      var e := es[|es| - 1];
      if e.Core? && !Blocked(RunJoint(START, es[..|es| - 1]), e.a) {
        RunSnoc(INIT, acts, e.a);
        acts := acts + [e.a];
      }
    }
  }
}
