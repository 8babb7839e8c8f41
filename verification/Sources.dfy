/** domain_source: which addresses send for which domain. The intel observer
    upserts it record by record and reports first sightings; the one-off
    backfill fills it from history in ranges of report serials. */
module Sources {
  import opened Reports
  import opened Addresses

  datatype Pair = Pair(domain: string, ip: Addr)

  /** One row of report JOIN rptrecord that carries an address. */
  datatype Hit = Hit(pair: Pair, serial: int, begin: int, end: int, count: int, aligned: bool)
  {
    function AlignedCount(): int { if aligned then count else 0 }
  }

  datatype SourceRow = SourceRow(firstSeen: int, lastSeen: int, firstSerial: int, msgs: int, aligned: int, acked: bool)

  type Table = map<Pair, SourceRow>

  // --- the join ---

  function HitOf(row: Row, rec: Record, ip: Addr): Hit {
    Hit(Pair(row.report.key.domain, ip), row.serial, row.report.begin, row.report.end, rec.count, Aligned(rec))
  }

  function Cols(rec: Record): Columns { Columns(rec.ip4, rec.ip6) }

  /** The records of one report as the observer sees them … */
  function ObservedHits(row: Row, n: nat): seq<Hit>
    requires n <= |row.report.records|
  {
    if n == 0 then []
    else
      var rec := row.report.records[n - 1];
      ObservedHits(row, n - 1) + match RecordIP(Cols(rec)) case Some(ip) => [HitOf(row, rec, ip)] case None => []
  }

  /** … and as the backfill's join does. */
  function JoinedHits(row: Row, n: nat): seq<Hit>
    requires n <= |row.report.records|
  {
    if n == 0 then []
    else
      var rec := row.report.records[n - 1];
      JoinedHits(row, n - 1) + match RecordInet(Cols(rec)) case Some(ip) => [HitOf(row, rec, ip)] case None => []
  }

  /** The record's address columns are what ParseXML stores for some address. */
  ghost predicate FromParser(rec: Record) {
    exists ip: Option<seq<Byte>> :: (ip.Some? ==> |ip.value| == 16) && Cols(rec) == Stored(ip)
  }

  /** Observer and backfill see the same hits in everything the parser stored. */
  lemma {:induction false} SameHits(row: Row, n: nat)
    requires n <= |row.report.records|
    requires forall k :: 0 <= k < |row.report.records| ==> FromParser(row.report.records[k])
    ensures ObservedHits(row, n) == JoinedHits(row, n)
  {
    if n == 0 {
    } else {
      SameHits(row, n - 1);
      var rec := row.report.records[n - 1];
      var ip: Option<seq<Byte>> :| (ip.Some? ==> |ip.value| == 16) && Cols(rec) == Stored(ip);
      StoredViewsAgree(ip);
    }
  }

  // --- one GROUP BY ---

  function Min(a: int, b: int): int { if a <= b then a else b }
  function Max(a: int, b: int): int { if a >= b then a else b }

  /** ON CONFLICT of the backfill: LEAST, GREATEST, LEAST, +, +; acked is kept. */
  function Merge(old': SourceRow, new': SourceRow): SourceRow {
    SourceRow(Min(old'.firstSeen, new'.firstSeen), Max(old'.lastSeen, new'.lastSeen),
              Min(old'.firstSerial, new'.firstSerial), old'.msgs + new'.msgs, old'.aligned + new'.aligned, old'.acked)
  }

  function MergeOpt(a: Option<SourceRow>, b: Option<SourceRow>): Option<SourceRow> {
    match (a, b)
    case (None, _) => b
    case (_, None) => a
    case (Some(x), Some(y)) => Some(Merge(x, y))
  }

  predicate InRange(h: Hit, lo: int, hi: int) { lo < h.serial <= hi }

  /** min, max, min, sum and filtered sum over the hits of one pair with a serial
      in (lo, hi], inserted acknowledged. */
  function Aggregate(hits: seq<Hit>, lo: int, hi: int, k: Pair): Option<SourceRow> {
    if hits == [] then None
    else
      var h := hits[|hits| - 1];
      var rest := Aggregate(hits[..|hits| - 1], lo, hi, k);
      if h.pair == k && InRange(h, lo, hi)
      then MergeOpt(rest, Some(SourceRow(h.begin, h.end, h.serial, h.count, h.AlignedCount(), true)))
      else rest
  }

  function GroupBy(hits: seq<Hit>, lo: int, hi: int): Table {
    map k | k in (set i | 0 <= i < |hits| :: hits[i].pair)
      && Aggregate(hits, lo, hi, k).Some? :: Aggregate(hits, lo, hi, k).value
  }

  function Get(t: Table, k: Pair): Option<SourceRow> {
    if k in t then Some(t[k]) else None
  }

  function MergeInto(t: Table, g: Table): Table {
    map k | k in t.Keys + g.Keys :: MergeOpt(Get(t, k), Get(g, k)).value
  }

  lemma {:induction false} GroupByGet(hits: seq<Hit>, lo: int, hi: int, k: Pair)
    ensures Get(GroupBy(hits, lo, hi), k) == Aggregate(hits, lo, hi, k)
  {
    AggregateNeedsHit(hits, lo, hi, k);
  }

  lemma {:induction false} AggregateNeedsHit(hits: seq<Hit>, lo: int, hi: int, k: Pair)
    ensures Aggregate(hits, lo, hi, k).Some? ==> exists i :: 0 <= i < |hits| && hits[i].pair == k
    ensures Aggregate(hits, lo, hi, k).Some? ==> Aggregate(hits, lo, hi, k).value.acked
  {
    if hits == [] {
    } else {
      var n := |hits| - 1;
      AggregateNeedsHit(hits[..n], lo, hi, k);
      if Aggregate(hits[..n], lo, hi, k).Some? {
        var i :| 0 <= i < n && hits[..n][i].pair == k;
        assert hits[i].pair == k;
      }
    }
  }

  lemma MergeAssociates(a: Option<SourceRow>, b: Option<SourceRow>, c: Option<SourceRow>)
    ensures MergeOpt(MergeOpt(a, b), c) == MergeOpt(a, MergeOpt(b, c))
  {
  }

  lemma MergeCommutes(a: Option<SourceRow>, b: Option<SourceRow>)
    requires (a.Some? ==> a.value.acked) && (b.Some? ==> b.value.acked)
    ensures MergeOpt(a, b) == MergeOpt(b, a)
  {
  }

  /** Adjacent ranges compose. */
  lemma {:induction false} RangesCompose(hits: seq<Hit>, lo: int, mid: int, hi: int, k: Pair)
    requires lo <= mid <= hi
    ensures Aggregate(hits, lo, hi, k) == MergeOpt(Aggregate(hits, lo, mid, k), Aggregate(hits, mid, hi, k))
  {
    if hits == [] {
    } else {
      var front := hits[..|hits| - 1];
      var h := hits[|hits| - 1];
      RangesCompose(front, lo, mid, hi, k);
      var left, right := Aggregate(front, lo, mid, k), Aggregate(front, mid, hi, k);
      var one := Some(SourceRow(h.begin, h.end, h.serial, h.count, h.AlignedCount(), true));
      AggregateNeedsHit(front, lo, mid, k);
      AggregateNeedsHit(front, mid, hi, k);
      MergeAssociates(left, right, one);
      MergeAssociates(left, one, right);
      MergeCommutes(right, one);
    }
  }

  lemma MergeIntoGet(t: Table, g: Table, k: Pair)
    ensures Get(MergeInto(t, g), k) == MergeOpt(Get(t, k), Get(g, k))
  {
  }

  lemma TableEqual(t: Table, t': Table)
    requires forall k :: Get(t, k) == Get(t', k)
    ensures t == t'
  {
    assert forall k :: k in t <==> Get(t, k).Some?;
    assert forall k :: k in t' <==> Get(t', k).Some?;
    forall k | k in t ensures k in t' && t[k] == t'[k] {
      assert Get(t, k) == Get(t', k);
    }
  }

  lemma BatchStep(t: Table, hits: seq<Hit>, lo: int, mid: int, hi: int)
    requires lo <= mid <= hi
    ensures MergeInto(MergeInto(t, GroupBy(hits, lo, mid)), GroupBy(hits, mid, hi))
        == MergeInto(t, GroupBy(hits, lo, hi))
  {
    var a, b, c := GroupBy(hits, lo, mid), GroupBy(hits, mid, hi), GroupBy(hits, lo, hi);
    forall k ensures Get(MergeInto(MergeInto(t, a), b), k) == Get(MergeInto(t, c), k) {
      MergeIntoGet(MergeInto(t, a), b, k);
      MergeIntoGet(t, a, k);
      MergeIntoGet(t, c, k);
      GroupByGet(hits, lo, mid, k);
      GroupByGet(hits, mid, hi, k);
      GroupByGet(hits, lo, hi, k);
      RangesCompose(hits, lo, mid, hi, k);
      MergeAssociates(Get(t, k), Get(a, k), Get(b, k));
    }
    TableEqual(MergeInto(MergeInto(t, a), b), MergeInto(t, c));
  }

  lemma MergeNothing(t: Table, hits: seq<Hit>, lo: int)
    ensures MergeInto(t, GroupBy(hits, lo, lo)) == t
    ensures MergeInto(map[], GroupBy(hits, lo, lo)) == map[]
  {
    forall k ensures Aggregate(hits, lo, lo, k) == None {
      EmptyRange(hits, lo, k);
    }
    assert GroupBy(hits, lo, lo) == map[];
  }

  lemma {:induction false} EmptyRange(hits: seq<Hit>, lo: int, k: Pair)
    ensures Aggregate(hits, lo, lo, k) == None
  {
    if hits == [] {
    } else {
      EmptyRange(hits[..|hits| - 1], lo, k);
    }
  }

  // --- the observer ---

  /** INSERT, or add to the counts and touch last_seen. */
  function Upsert(t: Table, h: Hit, now: int): Table {
    t[h.pair := if h.pair in t
                then
                  var row := t[h.pair];
                  row.(lastSeen := now, msgs := row.msgs + h.count, aligned := row.aligned + h.AlignedCount())
                else SourceRow(now, now, h.serial, h.count, h.AlignedCount(), false)]
  }

  predicate Notable(h: Hit, minMsgs: int) { h.count >= minMsgs || !h.aligned }

  /** Everything that can happen to the table, one atomic statement at a time, by
      any number of concurrent writers. told: the observer got the upsert's answer
      and lived to act on it. */
  datatype Op = Observe(hit: Hit, now: int, told: bool) | Import(hits: seq<Hit>, lo: int, hi: int)

  function Apply(t: Table, op: Op): Table {
    match op
    case Observe(h, now, _) => Upsert(t, h, now)
    case Import(hits, lo, hi) => MergeInto(t, GroupBy(hits, lo, hi))
  }

  /** sender.new: the upsert inserted, the observer knows, the record is notable. */
  predicate Announces(t: Table, op: Op, minMsgs: int) {
    op.Observe? && op.told && op.hit.pair !in t && Notable(op.hit, minMsgs)
  }

  function ApplyAll(t: Table, ops: seq<Op>): Table {
    if ops == [] then t else Apply(ApplyAll(t, ops[..|ops| - 1]), ops[|ops| - 1])
  }

  /** How many sender.new events for pair k a run emits. */
  function NewSender(t: Table, ops: seq<Op>, minMsgs: int, k: Pair): nat {
    if ops == [] then 0
    else
      var n := |ops| - 1;
      NewSender(t, ops[..n], minMsgs, k)
      + One(ops[n].Observe? && ops[n].hit.pair == k && Announces(ApplyAll(t, ops[..n]), ops[n], minMsgs))
  }

  predicate Touches(op: Op, k: Pair) {
    match op
    case Observe(h, _, _) => h.pair == k
    case Import(hits, lo, hi) => k in GroupBy(hits, lo, hi)
  }

  /** The first operation that touches k, |ops| if none does. */
  function FirstTouch(ops: seq<Op>, k: Pair): (i: nat)
    ensures i <= |ops|
    ensures forall j :: 0 <= j < i ==> !Touches(ops[j], k)
    ensures i < |ops| ==> Touches(ops[i], k)
  {
    if ops == [] then 0
    else
      var n := |ops| - 1;
      var i := FirstTouch(ops[..n], k);
      if i < n then i else if Touches(ops[n], k) then n else n + 1
  }

  lemma {:induction false} PresentIffTouched(t: Table, ops: seq<Op>, k: Pair)
    ensures k in ApplyAll(t, ops) <==> k in t || FirstTouch(ops, k) < |ops|
  {
    if ops == [] {
    } else {
      var n := |ops| - 1;
      PresentIffTouched(t, ops[..n], k);
      assert FirstTouch(ops[..n], k) < n ==> FirstTouch(ops, k) == FirstTouch(ops[..n], k);
    }
  }

  /** Over any interleaving of observers and imports, sender.new is emitted for a
      pair at most once, and it is emitted exactly when the pair was unknown, an
      observer's record was the first thing to touch it, that very record was large
      enough or unaligned, and its upsert was answered and not followed by a crash.
      A pair that first shows up in an import, in a small aligned record or in an
      upsert whose answer is lost is never announced. */
  lemma {:induction false} NewSenderOnceIff(t: Table, ops: seq<Op>, minMsgs: int, k: Pair)
    ensures var i := FirstTouch(ops, k);
      NewSender(t, ops, minMsgs, k)
        == One(k !in t && i < |ops| && ops[i].Observe? && ops[i].told && Notable(ops[i].hit, minMsgs))
  {
    if ops == [] {
    } else {
      var n := |ops| - 1;
      NewSenderOnceIff(t, ops[..n], minMsgs, k);
      PresentIffTouched(t, ops[..n], k);
      var i := FirstTouch(ops[..n], k);
      assert i < n ==> ops[..n][i] == ops[i];
    }
  }

  // --- counts ---

  function Msgs(hits: seq<Hit>, k: Pair): int {
    if hits == [] then 0
    else Msgs(hits[..|hits| - 1], k) + if hits[|hits| - 1].pair == k then hits[|hits| - 1].count else 0
  }

  function AlignedMsgs(hits: seq<Hit>, k: Pair): int {
    if hits == [] then 0
    else AlignedMsgs(hits[..|hits| - 1], k) + if hits[|hits| - 1].pair == k then hits[|hits| - 1].AlignedCount() else 0
  }

  lemma {:induction false} SumsConcat(a: seq<Hit>, b: seq<Hit>, k: Pair)
    ensures Msgs(a + b, k) == Msgs(a, k) + Msgs(b, k) && AlignedMsgs(a + b, k) == AlignedMsgs(a, k) + AlignedMsgs(b, k)
  {
    if b == [] {
      assert a + b == a;
    } else {
      SumsConcat(a, b[..|b| - 1], k);
      assert (a + b)[..|a + b| - 1] == a + b[..|b| - 1];
    }
  }

  predicate Mentions(hits: seq<Hit>, k: Pair) {
    exists i :: 0 <= i < |hits| && hits[i].pair == k
  }

  lemma {:induction false} RemoveAt(hits: seq<Hit>, i: nat, k: Pair)
    requires i < |hits|
    ensures var rest, h := hits[..i] + hits[i + 1..], hits[i];
      && Msgs(hits, k) == Msgs(rest, k) + (if h.pair == k then h.count else 0)
      && AlignedMsgs(hits, k) == AlignedMsgs(rest, k) + (if h.pair == k then h.AlignedCount() else 0)
  {
    var n := |hits| - 1;
    var rest := hits[..i] + hits[i + 1..];
    if i == n {
      assert rest == hits[..n];
    } else {
      RemoveAt(hits[..n], i, k);
      assert rest[..n - 1] == hits[..n][..i] + hits[..n][i + 1..];
      assert rest[n - 1] == hits[n];
    }
  }

  lemma MentionsMonotone(a: seq<Hit>, b: seq<Hit>, k: Pair)
    requires forall h :: h in a ==> h in b
    ensures Mentions(a, k) ==> Mentions(b, k)
  {
    if Mentions(a, k) {
      var i :| 0 <= i < |a| && a[i].pair == k;
      assert a[i] in b;
    }
  }

  lemma Without(b: seq<Hit>, i: nat)
    requires i < |b|
    ensures multiset(b) == multiset(b[..i] + b[i + 1..]) + multiset{b[i]}
  {
    var left, right := b[..i], b[i + 1..];
    assert b == left + ([b[i]] + right);
    assert multiset(left + right) == multiset(left) + multiset(right);
  }

  lemma RemoveLast(a: seq<Hit>, b: seq<Hit>) returns (i: nat)
    requires multiset(a) == multiset(b) && a != []
    ensures i < |b| && b[i] == a[|a| - 1]
    ensures multiset(a[..|a| - 1]) == multiset(b[..i] + b[i + 1..])
  {
    var n := |a| - 1;
    assert a[n] in multiset(b);
    i :| 0 <= i < |b| && b[i] == a[n];
    Without(b, i);
    Without(a, n);
    assert a[..n] + a[n + 1..] == a[..n];
    var x, y := multiset(a[..n]), multiset(b[..i] + b[i + 1..]);
    assert x + multiset{a[n]} == y + multiset{a[n]};
    assert x == (x + multiset{a[n]}) - multiset{a[n]};
    assert y == (y + multiset{a[n]}) - multiset{a[n]};
  }

  /** Sums do not depend on the order of the hits. */
  lemma {:induction false} SumsPermute(a: seq<Hit>, b: seq<Hit>, k: Pair)
    requires multiset(a) == multiset(b)
    ensures Msgs(a, k) == Msgs(b, k) && AlignedMsgs(a, k) == AlignedMsgs(b, k)
  {
    assert |a| == |multiset(a)| == |multiset(b)| == |b|;
    if a == [] {
    } else {
      var i := RemoveLast(a, b);
      RemoveAt(b, i, k);
      SumsPermute(a[..|a| - 1], b[..i] + b[i + 1..], k);
    }
  }

  lemma MentionsPermute(a: seq<Hit>, b: seq<Hit>, k: Pair)
    requires multiset(a) == multiset(b)
    ensures Mentions(a, k) <==> Mentions(b, k)
  {
    assert forall h :: h in a <==> h in multiset(a);
    assert forall h :: h in b <==> h in multiset(b);
    MentionsMonotone(a, b, k);
    MentionsMonotone(b, a, k);
  }

  lemma MentionsStep(hits: seq<Hit>, k: Pair)
    requires hits != []
    ensures Mentions(hits, k) <==> Mentions(hits[..|hits| - 1], k) || hits[|hits| - 1].pair == k
  {
    var n := |hits| - 1;
    if Mentions(hits[..n], k) {
      var i :| 0 <= i < n && hits[..n][i].pair == k;
      assert hits[i].pair == k;
    }
    if Mentions(hits, k) && hits[n].pair != k {
      var i :| 0 <= i < |hits| && hits[i].pair == k;
      assert hits[..n][i].pair == k;
    }
  }

  lemma {:induction false} AggregateSums(hits: seq<Hit>, hi: int, k: Pair)
    requires forall i :: 0 <= i < |hits| ==> 0 < hits[i].serial <= hi
    ensures Aggregate(hits, 0, hi, k).Some? <==> Mentions(hits, k)
    ensures Aggregate(hits, 0, hi, k).Some? ==>
              Aggregate(hits, 0, hi, k).value.msgs == Msgs(hits, k)
                && Aggregate(hits, 0, hi, k).value.aligned == AlignedMsgs(hits, k)
    ensures Aggregate(hits, 0, hi, k).None? ==> Msgs(hits, k) == 0 && AlignedMsgs(hits, k) == 0
  {
    if hits == [] {
    } else {
      var n := |hits| - 1;
      AggregateSums(hits[..n], hi, k);
      MentionsStep(hits, k);
    }
  }

  function Observed(ops: seq<Op>): seq<Hit>
    requires forall i :: 0 <= i < |ops| ==> ops[i].Observe?
  {
    seq(|ops|, i requires 0 <= i < |ops| => ops[i].hit)
  }

  /** The upserts of one report's loop, when some of its statements fail. */
  function Upserts(row: Row, n: nat, now: int, fates: nat -> Commit): seq<Op>
    requires n <= |row.report.records|
  {
    if n == 0 then []
    else
      var rec := row.report.records[n - 1];
      Upserts(row, n - 1, now, fates) + match RecordIP(Cols(rec))
        case Some(ip) =>
          if fates(n - 1).NotApplied? then [] else [Observe(HitOf(row, rec, ip), now, fates(n - 1).Applied?)]
        case None => []
  }

  /** If none fails they are those of every record with an address. */
  lemma {:induction false} UpsertsAll(row: Row, n: nat, now: int, fates: nat -> Commit)
    requires n <= |row.report.records| && forall i: nat :: i < n ==> fates(i).Applied?
    ensures forall i :: 0 <= i < |Upserts(row, n, now, fates)| ==>
        Upserts(row, n, now, fates)[i].Observe? && Upserts(row, n, now, fates)[i].told
    ensures Observed(Upserts(row, n, now, fates)) == ObservedHits(row, n)
  {
    if n == 0 {
    } else {
      UpsertsAll(row, n - 1, now, fates);
    }
  }

  lemma {:induction false} ObserverSums(ops: seq<Op>, k: Pair)
    requires forall i :: 0 <= i < |ops| ==> ops[i].Observe?
    ensures var t := ApplyAll(map[], ops);
      && (k in t <==> Mentions(Observed(ops), k))
      && (k in t ==> t[k].msgs == Msgs(Observed(ops), k) && t[k].aligned == AlignedMsgs(Observed(ops), k))
      && (k !in t ==> Msgs(Observed(ops), k) == 0 && AlignedMsgs(Observed(ops), k) == 0)
  {
    if ops == [] {
    } else {
      var n := |ops| - 1;
      ObserverSums(ops[..n], k);
      assert Observed(ops)[..n] == Observed(ops[..n]);
      assert Observed(ops)[n] == ops[n].hit;
      MentionsStep(Observed(ops), k);
    }
  }

  /** The counts the observers accumulate, in whatever order the records arrive,
      are the counts one GROUP BY over the same records gives. */
  lemma ObserversAgreeWithGroupBy(ops: seq<Op>, hits: seq<Hit>, hi: int, k: Pair)
    requires forall i :: 0 <= i < |ops| ==> ops[i].Observe?
    requires multiset(Observed(ops)) == multiset(hits)
    requires forall i :: 0 <= i < |hits| ==> 0 < hits[i].serial <= hi
    ensures var t, g := ApplyAll(map[], ops), GroupBy(hits, 0, hi);
      && (k in t <==> k in g)
      && (k in t ==> t[k].msgs == g[k].msgs && t[k].aligned == g[k].aligned)
  {
    ObserverSums(ops, k);
    SumsPermute(Observed(ops), hits, k);
    MentionsPermute(Observed(ops), hits, k);
    AggregateSums(hits, hi, k);
    GroupByGet(hits, 0, hi, k);
  }

  // --- the code ---

  /** The first multiple of step at or above max: where the batches end. */
  function LastTo(max: int, step: int): int
    requires step > 0
  {
    if max <= 0 then 0 else (max + step - 1) / step * step
  }

  class SourceStore {
    var rows: Table

    constructor ()
      ensures rows == map[]
    {
      rows := map[];
    }

    method BackfillBatch(hits: seq<Hit>, lo: int, hi: int) returns (n: nat)
      modifies this
      ensures rows == MergeInto(old(rows), GroupBy(hits, lo, hi)) && n == |GroupBy(hits, lo, hi)|
    {
      var g := GroupBy(hits, lo, hi);
      rows := MergeInto(rows, g);
      n := |g|;
    }

    /** Batches of step serials, from 0 to the highest serial seen at the start.
        The last batch may reach past it. fates(k) is how the k-th statement ends;
        the first error ends the work. */
    method Backfill(hits: seq<Hit>, maxSerial: int, step: int, fates: nat -> Commit)
      returns (ok: bool, ghost reached: int)
      requires step > 0
      modifies this
      ensures rows == MergeInto(old(rows), GroupBy(hits, 0, reached))
      ensures 0 <= reached <= LastTo(maxSerial, step) && reached % step == 0
      ensures ok ==> reached == LastTo(maxSerial, step)
      ensures (forall k :: fates(k).Applied?) ==> ok
    {
      hide GroupBy, MergeInto, LastTo;
      var from, batches := 0, 0;
      MergeNothing(rows, hits, 0);
      LastToBounds(maxSerial, step, 0);
      while from < maxSerial
        invariant 0 <= from <= LastTo(maxSerial, step) && 0 <= batches && from == batches * step
        invariant from == 0 || from - step < maxSerial
        invariant rows == MergeInto(old(rows), GroupBy(hits, 0, from))
        decreases maxSerial - from
      {
        var to := from + step;
        NextBatch(batches, step);
        LastToBounds(maxSerial, step, batches);
        LastToBounds(maxSerial, step, batches + 1);
        if fates(batches).NotApplied? {
          return false, from;
        }
        var n := BackfillBatch(hits, from, to);
        BatchStep(old(rows), hits, 0, from, to);
        if fates(batches).Unacked? {
          return false, to;
        }
        from, batches := to, batches + 1;
      }
      LastToIs(maxSerial, step, batches, from);
      LastToBounds(maxSerial, step, batches);
      return true, from;
    }

    /** The observer's loop over a report's records. A failed upsert skips its
        record, one that took effect unnoticed is not announced. Returns the records
        it announced. */
    method OnIngest(row: Row, now: int, minMsgs: int, fates: nat -> Commit) returns (announced: seq<Hit>)
      modifies this
      ensures var ops := Upserts(row, |row.report.records|, now, fates);
        && rows == ApplyAll(old(rows), ops)
        && forall k :: Count(announced, k) == NewSender(old(rows), ops, minMsgs, k)
      ensures forall h :: h in announced ==> h.pair !in old(rows) && Notable(h, minMsgs)
    {
      announced := [];
      UpsertNothing(rows, row, now, minMsgs, fates);
      hide ApplyAll, NewSender, Count, Upserts, HitOf, RecordIP;
      var recs := row.report.records;
      for i := 0 to |recs|
        invariant rows == ApplyAll(old(rows), Upserts(row, i, now, fates))
        invariant forall k :: Count(announced, k) == NewSender(old(rows), Upserts(row, i, now, fates), minMsgs, k)
        invariant forall h :: h in announced ==> h.pair !in old(rows) && Notable(h, minMsgs)
        invariant forall k :: k in old(rows) ==> k in rows
      {
        UpsertsStep(row, i, now, fates);
        var ip := RecordIP(Cols(recs[i]));
        if ip.None? || fates(i).NotApplied? {
          continue;
        }
        var h := HitOf(row, recs[i], ip.value);
        var isNew := h.pair !in rows;
        OpStep(old(rows), Upserts(row, i, now, fates), Observe(h, now, fates(i).Applied?), minMsgs);
        rows := Upsert(rows, h, now);
        if fates(i).Unacked? {
          continue;
        }
        if isNew && (h.count >= minMsgs || !h.aligned) {
          CountStep(announced, h);
          announced := announced + [h];
        }
      }
    }
  }

  function One(b: bool): nat { if b then 1 else 0 }

  function Count(hits: seq<Hit>, k: Pair): nat {
    if hits == [] then 0 else Count(hits[..|hits| - 1], k) + One(hits[|hits| - 1].pair == k)
  }

  lemma CountStep(hits: seq<Hit>, h: Hit)
    ensures forall k :: Count(hits + [h], k) == Count(hits, k) + One(h.pair == k)
  {
    assert (hits + [h])[..|hits|] == hits;
  }

  lemma UpsertNothing(t: Table, row: Row, now: int, minMsgs: int, fates: nat -> Commit)
    ensures ApplyAll(t, []) == t && Upserts(row, 0, now, fates) == []
    ensures forall k :: Count([], k) == NewSender(t, [], minMsgs, k) == 0
  {
  }

  lemma UpsertsStep(row: Row, i: nat, now: int, fates: nat -> Commit)
    requires i < |row.report.records|
    ensures var rec := row.report.records[i];
            var ip := RecordIP(Cols(rec));
      Upserts(row, i + 1, now, fates)
        == if ip.None? || fates(i).NotApplied? then Upserts(row, i, now, fates)
           else Upserts(row, i, now, fates) + [Observe(HitOf(row, rec, ip.value), now, fates(i).Applied?)]
  {
  }

  lemma OpStep(t: Table, ops: seq<Op>, op: Op, minMsgs: int)
    requires op.Observe?
    ensures ApplyAll(t, ops + [op]) == Apply(ApplyAll(t, ops), op)
    ensures forall k :: NewSender(t, ops + [op], minMsgs, k)
                     == NewSender(t, ops, minMsgs, k)
                       + One(op.hit.pair == k && Announces(ApplyAll(t, ops), op, minMsgs))
  {
    assert (ops + [op])[..|ops|] == ops;
  }

  /** The end of every batch the loop begins lies within LastTo. */
  lemma LastToBounds(max: int, step: int, batches: nat)
    requires step > 0
    ensures batches == 0 || (batches - 1) * step < max ==> 0 <= batches * step <= LastTo(max, step)
    ensures (batches * step) % step == 0
  {
    MulMono(0, batches, step);
    MultipleOf(batches, step);
    if max > 0 {
      var q := (max + step - 1) / step;
      assert max + step - 1 == q * step + (max + step - 1) % step;
      NextBatch(q, step);
      NextBatch(batches - 1, step);
      if q < batches { MulMono(q, batches - 1, step); } else { MulMono(batches, q, step); }
    } else if batches > 0 {
      MulMono(0, batches - 1, step);
    }
  }

  lemma MultipleOf(b: int, d: int)
    requires d > 0
    ensures b * d % d == 0
  {
    var q, r := b * d / d, b * d % d;
    assert b * d == q * d + r;
    if q < b { MulMono(q + 1, b, d); NextBatch(q, d); } else if b < q { MulMono(b + 1, q, d); NextBatch(b, d); }
  }

  lemma MulMono(a: int, b: int, d: int)
    requires d > 0 && a <= b
    ensures a * d <= b * d
  {
    assert (b - a) * d >= 0;
  }

  lemma NextBatch(batches: int, step: int)
    ensures (batches + 1) * step == batches * step + step
  {
  }

  /** Batches end at the first multiple of step at or above max. */
  lemma LastToIs(max: int, step: int, batches: nat, end: int)
    requires step > 0 && end == batches * step && max <= end && (end == 0 || end - step < max)
    ensures LastTo(max, step) == end
  {
    if max > 0 {
      var q := (max + step - 1) / step;
      assert max + step - 1 == q * step + (max + step - 1) % step;
      NextBatch(q, step);
      NextBatch(batches, step);
      if q < batches {
        MulMono(q + 1, batches, step);
      } else if batches < q {
        MulMono(batches + 1, q, step);
      }
    } else if end != 0 {
      MulMono(1, batches, step);
    }
  }

  /** From an empty table, for every batch size: the batches together insert
      exactly what one GROUP BY over all the records would. */
  lemma BatchedIsOneGroupBy(hits: seq<Hit>, maxSerial: int, step: int)
    requires step > 0 && forall i :: 0 <= i < |hits| ==> 0 < hits[i].serial <= maxSerial
    ensures MergeInto(map[], GroupBy(hits, 0, LastTo(maxSerial, step))) == GroupBy(hits, 0, maxSerial)
  {
    if maxSerial > 0 {
      LastToCovers(maxSerial, step);
    }
    forall k
      ensures Get(MergeInto(map[], GroupBy(hits, 0, LastTo(maxSerial, step))), k)
          == Get(GroupBy(hits, 0, maxSerial), k) {
      GroupByGet(hits, 0, LastTo(maxSerial, step), k);
      GroupByGet(hits, 0, maxSerial, k);
      SameRange(hits, maxSerial, LastTo(maxSerial, step), k);
    }
    TableEqual(MergeInto(map[], GroupBy(hits, 0, LastTo(maxSerial, step))), GroupBy(hits, 0, maxSerial));
  }

  lemma LastToCovers(max: int, step: int)
    requires step > 0 && max > 0
    ensures max <= LastTo(max, step)
  {
    var n := max + step - 1;
    assert n == n / step * step + n % step;
  }

  lemma {:induction false} SameRange(hits: seq<Hit>, hi: int, hi': int, k: Pair)
    requires forall i :: 0 <= i < |hits| ==> 0 < hits[i].serial <= hi
    requires |hits| > 0 ==> hi <= hi'
    ensures Aggregate(hits, 0, hi', k) == Aggregate(hits, 0, hi, k)
  {
    if hits == [] {
    } else {
      SameRange(hits[..|hits| - 1], hi, hi', k);
    }
  }

  // --- whole history ---

  function Observation(rows: seq<Row>): seq<Hit> {
    if rows == [] then [] else
      var last := rows[|rows| - 1];
      Observation(rows[..|rows| - 1]) + ObservedHits(last, |last.report.records|)
  }

  function Join(rows: seq<Row>): seq<Hit> {
    if rows == [] then [] else
      var last := rows[|rows| - 1];
      Join(rows[..|rows| - 1]) + JoinedHits(last, |last.report.records|)
  }

  ghost predicate Parsed(rows: seq<Row>, max: int) {
    forall i :: 0 <= i < |rows| ==>
      && 0 < rows[i].serial <= max
      && forall k :: 0 <= k < |rows[i].report.records| ==> FromParser(rows[i].report.records[k])
  }

  lemma {:induction false} ObservedSerials(row: Row, n: nat)
    requires n <= |row.report.records|
    ensures forall h :: h in ObservedHits(row, n) ==> h.serial == row.serial
  {
    if n == 0 {
    } else {
      ObservedSerials(row, n - 1);
    }
  }

  lemma {:induction false} SameHistory(rows: seq<Row>, max: int)
    requires Parsed(rows, max)
    ensures Observation(rows) == Join(rows)
    ensures forall h :: h in Observation(rows) ==> 0 < h.serial <= max
  {
    if rows == [] {
    } else {
      var n := |rows| - 1;
      assert Parsed(rows[..n], max) by { assert forall i :: 0 <= i < n ==> rows[..n][i] == rows[i]; }
      SameHistory(rows[..n], max);
      SameHits(rows[n], |rows[n].report.records|);
      ObservedSerials(rows[n], |rows[n].report.records|);
    }
  }

  /** End to end: for any stored history, any order in which its records reached
      the observers and any batch size, the maintained table and one backfilled
      from empty hold the same pairs with the same counts. */
  lemma BackfillMatchesObservers(rows: seq<Row>, ops: seq<Op>, max: int, step: int, k: Pair)
    requires step > 0 && Parsed(rows, max)
    requires forall i :: 0 <= i < |ops| ==> ops[i].Observe?
    requires multiset(Observed(ops)) == multiset(Observation(rows))
    ensures var t, g := ApplyAll(map[], ops), MergeInto(map[], GroupBy(Join(rows), 0, LastTo(max, step)));
      && (k in t <==> k in g)
      && (k in t ==> t[k].msgs == g[k].msgs && t[k].aligned == g[k].aligned)
  {
    SameHistory(rows, max);
    var hits := Join(rows);
    assert forall i :: 0 <= i < |hits| ==> hits[i] in hits;
    BatchedIsOneGroupBy(hits, max, step);
    ObserversAgreeWithGroupBy(ops, hits, max, k);
  }

  /** Over a table the observers already filled, the same backfill counts every
      record a second time: it is for an empty table. */
  lemma BackfillOverObserversDoubles(rows: seq<Row>, ops: seq<Op>, max: int, step: int, k: Pair)
    requires step > 0 && Parsed(rows, max)
    requires forall i :: 0 <= i < |ops| ==> ops[i].Observe?
    requires multiset(Observed(ops)) == multiset(Observation(rows))
    ensures var t := ApplyAll(map[], ops);
            var u := MergeInto(t, GroupBy(Join(rows), 0, LastTo(max, step)));
      && (k in u <==> k in t)
      && (k in t ==> u[k].msgs == 2 * t[k].msgs && u[k].aligned == 2 * t[k].aligned)
  {
    var t, g := ApplyAll(map[], ops), GroupBy(Join(rows), 0, LastTo(max, step));
    BackfillMatchesObservers(rows, ops, max, step, k);
    MergeIntoGet(t, g, k);
    MergeIntoGet(map[], g, k);
  }
}
