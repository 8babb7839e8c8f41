/** Keyed counter rows and what it means for a table to hold a given multiset
    of entries. The rollup table is one such table: its entries are the
    contributions of the stored reports, and a weight vector says how often
    each of them is counted. */
module Ledger {
  datatype Bucket = Bucket(day: int, domain: string)

  /** The eight value columns of dmarc_agg_daily. */
  datatype Counts = Counts(
    total: int, aligned: int, dkim: int, spf: int,
    none: int, quarantine: int, reject: int, reports: int)

  datatype Entry = Entry(bucket: Bucket, counts: Counts)

  const ZERO := Counts(0, 0, 0, 0, 0, 0, 0, 0)

  function Plus(a: Counts, b: Counts): Counts {
    Counts(a.total + b.total, a.aligned + b.aligned, a.dkim + b.dkim, a.spf + b.spf,
           a.none + b.none, a.quarantine + b.quarantine, a.reject + b.reject,
           a.reports + b.reports)
  }

  function Times(n: nat, c: Counts): Counts {
    if n == 0 then ZERO else Plus(Times(n - 1, c), c)
  }

  function At(daily: map<Bucket, Counts>, b: Bucket): Counts {
    if b in daily then daily[b] else ZERO
  }

  /** INSERT … ON CONFLICT (day, domain) DO UPDATE, column by column. */
  function Upsert(daily: map<Bucket, Counts>, b: Bucket, c: Counts): map<Bucket, Counts> {
    daily[b := Plus(At(daily, b), c)]
  }

  function Apply(daily: map<Bucket, Counts>, e: Entry): map<Bucket, Counts> {
    Upsert(daily, e.bucket, e.counts)
  }

  function Share(e: Entry, n: nat, b: Bucket): Counts {
    if e.bucket == b then Times(n, e.counts) else ZERO
  }

  /** The first n entries, each taken as often as w says. */
  function Sum(es: seq<Entry>, w: seq<nat>, n: nat, b: Bucket): Counts
    requires n <= |es| && n <= |w|
  {
    if n == 0 then ZERO else Plus(Sum(es, w, n - 1, b), Share(es[n - 1], w[n - 1], b))
  }

  function Weighted(es: seq<Entry>, w: seq<nat>, b: Bucket): Counts
    requires |w| == |es|
  {
    Sum(es, w, |es|, b)
  }

  ghost predicate Touched(es: seq<Entry>, w: seq<nat>, b: Bucket)
    requires |w| == |es|
  {
    exists i :: 0 <= i < |es| && es[i].bucket == b && 0 < w[i]
  }

  /** The table holds exactly the entries counted by w, bucket by bucket and
      column by column, and no other rows. */
  ghost predicate Counted(daily: map<Bucket, Counts>, es: seq<Entry>, w: seq<nat>)
    requires |w| == |es|
  {
    && (forall b :: At(daily, b) == Weighted(es, w, b))
    && (forall b :: b in daily <==> Touched(es, w, b))
  }

  function Ones(n: nat): (w: seq<nat>)
    ensures |w| == n
  {
    seq(n, i => 1)
  }

  function Missing(w: seq<nat>): seq<nat> { seq(|w|, i requires 0 <= i < |w| => if w[i] == 0 then 1 else 0) }

  function Extra(w: seq<nat>): seq<nat> { seq(|w|, i requires 0 <= i < |w| => if w[i] == 0 then 0 else w[i] - 1) }

  lemma PlusZero(c: Counts)
    ensures Plus(c, ZERO) == c && Plus(ZERO, c) == c && Times(1, c) == c
  {
    assert Times(1, c) == Plus(Times(0, c), c);
  }

  lemma AddBalances(o: Counts, x: Counts, a: Counts, m: Counts, so: Counts, sx: Counts, sa: Counts, sm: Counts)
    requires Plus(o, x) == Plus(a, m) && Plus(so, sx) == Plus(sa, sm)
    ensures Plus(Plus(o, so), Plus(x, sx)) == Plus(Plus(a, sa), Plus(m, sm))
  {
  }

  lemma {:induction false} SumAgrees(es: seq<Entry>, w: seq<nat>, es': seq<Entry>, w': seq<nat>, n: nat, b: Bucket)
    requires n <= |es| && n <= |w| && n <= |es'| && n <= |w'|
    requires forall k :: 0 <= k < n ==> es[k] == es'[k] && w[k] == w'[k]
    ensures Sum(es, w, n, b) == Sum(es', w', n, b)
  {
    if n == 0 {
    } else {
      SumAgrees(es, w, es', w', n - 1, b);
    }
  }

  lemma PlusSwaps(x: Counts, y: Counts, z: Counts)
    ensures Plus(Plus(x, y), z) == Plus(Plus(x, z), y) == Plus(x, Plus(y, z))
  {
  }

  lemma ShareBump(e: Entry, n: nat, b: Bucket)
    ensures Share(e, n + 1, b) == Plus(Share(e, n, b), Share(e, 1, b))
  {
    ShareAdds(e, n, 1, b);
  }

  lemma SumStep(es: seq<Entry>, w: seq<nat>, n: nat, k: nat, b: Bucket)
    requires n < |es| && n < |w| && w[n] == k
    ensures Sum(es, w, n + 1, b) == Plus(Sum(es, w, n, b), Share(es[n], k, b))
  {
  }

  lemma {:induction false} SumBump(es: seq<Entry>, w: seq<nat>, i: nat, n: nat, b: Bucket)
    requires i < n <= |es| && n <= |w|
    ensures Sum(es, w[i := w[i] + 1], n, b) == Plus(Sum(es, w, n, b), Share(es[i], 1, b))
  {
    var w' := w[i := w[i] + 1];
    SumStep(es, w, n - 1, w[n - 1], b);
    SumStep(es, w', n - 1, w'[n - 1], b);
    if i == n - 1 {
      SumAgrees(es, w, es, w', n - 1, b);
      ShareBump(es[i], w[i], b);
    } else {
      SumBump(es, w, i, n - 1, b);
    }
    hide Share, Sum, Plus;
    PlusSwaps(Sum(es, w, n - 1, b), Share(es[n - 1], w[n - 1], b), Share(es[i], 1, b));
  }

  lemma TouchedBump(es: seq<Entry>, w: seq<nat>, i: nat, b: Bucket)
    requires |w| == |es| && i < |es|
    ensures Touched(es, w[i := w[i] + 1], b) <==> Touched(es, w, b) || b == es[i].bucket
  {
    var w' := w[i := w[i] + 1];
    if Touched(es, w, b) {
      var k :| 0 <= k < |es| && es[k].bucket == b && 0 < w[k];
      assert 0 < w'[k];
    }
    if b == es[i].bucket { assert 0 < w'[i]; }
  }

  lemma ApplyAt(daily: map<Bucket, Counts>, e: Entry, b: Bucket)
    ensures At(Apply(daily, e), b) == Plus(At(daily, b), Share(e, 1, b))
  {
    PlusZero(e.counts);
    PlusZero(At(daily, b));
  }

  /** An upsert keeps the table equal to what the weights say. */
  lemma ApplyCounts(daily: map<Bucket, Counts>, es: seq<Entry>, w: seq<nat>, i: nat)
    requires |w| == |es| && i < |es| && Counted(daily, es, w)
    ensures Counted(Apply(daily, es[i]), es, w[i := w[i] + 1])
  {
    forall b ensures At(Apply(daily, es[i]), b) == Weighted(es, w[i := w[i] + 1], b) {
      ApplyAt(daily, es[i], b);
      SumBump(es, w, i, |es|, b);
    }
    forall b ensures b in Apply(daily, es[i]) <==> Touched(es, w[i := w[i] + 1], b) {
      TouchedBump(es, w, i, b);
    }
  }

  lemma TouchedAppend(es: seq<Entry>, w: seq<nat>, e: Entry, b: Bucket)
    requires |w| == |es|
    ensures Touched(es + [e], w + [0], b) <==> Touched(es, w, b)
  {
    if Touched(es, w, b) {
      var k :| 0 <= k < |es| && es[k].bucket == b && 0 < w[k];
      assert (es + [e])[k] == es[k] && 0 < (w + [0])[k];
    }
    if Touched(es + [e], w + [0], b) {
      var k :| 0 <= k < |es + [e]| && (es + [e])[k].bucket == b && 0 < (w + [0])[k];
      assert k < |es| && es[k] == (es + [e])[k];
    }
  }

  lemma WeightedAppend(es: seq<Entry>, w: seq<nat>, e: Entry, b: Bucket)
    requires |w| == |es|
    ensures Weighted(es + [e], w + [0], b) == Weighted(es, w, b)
  {
    SumAgrees(es, w, es + [e], w + [0], |es|, b);
    PlusZero(Weighted(es, w, b));
  }

  /** An entry that exists but is not counted changes nothing in the table. */
  lemma StoreLeavesTable(daily: map<Bucket, Counts>, es: seq<Entry>, w: seq<nat>, e: Entry)
    requires |w| == |es| && Counted(daily, es, w)
    ensures Counted(daily, es + [e], w + [0])
  {
    forall b ensures At(daily, b) == Weighted(es + [e], w + [0], b) {
      WeightedAppend(es, w, e, b);
    }
    forall b ensures b in daily <==> Touched(es + [e], w + [0], b) {
      TouchedAppend(es, w, e, b);
    }
  }

  lemma ShareBalance(e: Entry, n: nat, b: Bucket)
    ensures Plus(Share(e, 1, b), Share(e, if n == 0 then 0 else n - 1, b))
         == Plus(Share(e, n, b), Share(e, if n == 0 then 1 else 0, b))
  {
    PlusZero(e.counts);
  }

  lemma SumBalanceStep(es: seq<Entry>, w: seq<nat>, n: nat, b: Bucket)
    requires |w| == |es| && n < |es|
    requires Plus(Sum(es, Ones(|es|), n, b), Sum(es, Extra(w), n, b))
        == Plus(Sum(es, w, n, b), Sum(es, Missing(w), n, b))
    ensures Plus(Sum(es, Ones(|es|), n + 1, b), Sum(es, Extra(w), n + 1, b))
         == Plus(Sum(es, w, n + 1, b), Sum(es, Missing(w), n + 1, b))
  {
    var extra, missing := if w[n] == 0 then 0 else w[n] - 1, if w[n] == 0 then 1 else 0;
    SumStep(es, Ones(|es|), n, 1, b);
    SumStep(es, Extra(w), n, extra, b);
    SumStep(es, w, n, w[n], b);
    SumStep(es, Missing(w), n, missing, b);
    ShareBalance(es[n], w[n], b);
    AddBalances(Sum(es, Ones(|es|), n, b), Sum(es, Extra(w), n, b), Sum(es, w, n, b), Sum(es, Missing(w), n, b),
                Share(es[n], 1, b), Share(es[n], extra, b), Share(es[n], w[n], b), Share(es[n], missing, b));
  }

  lemma {:induction false} SumBalance(es: seq<Entry>, w: seq<nat>, n: nat, b: Bucket)
    requires |w| == |es| && n <= |es|
    ensures Plus(Sum(es, Ones(|es|), n, b), Sum(es, Extra(w), n, b))
         == Plus(Sum(es, w, n, b), Sum(es, Missing(w), n, b))
  {
    if n == 0 {
    } else {
      SumBalance(es, w, n - 1, b);
      SumBalanceStep(es, w, n - 1, b);
    }
  }

  /** Truth plus what is counted too often equals the table plus what is not
      counted, for every bucket and every column. */
  lemma Balance(es: seq<Entry>, w: seq<nat>, b: Bucket)
    requires |w| == |es|
    ensures Plus(Weighted(es, Ones(|es|), b), Weighted(es, Extra(w), b))
         == Plus(Weighted(es, w, b), Weighted(es, Missing(w), b))
  {
    SumBalance(es, w, |es|, b);
  }

  lemma {:induction false} TimesAdd(m: nat, n: nat, c: Counts)
    ensures Times(m + n, c) == Plus(Times(m, c), Times(n, c))
  {
    PlusZero(Times(m, c));
    if n == 0 {
    } else {
      TimesAdd(m, n - 1, c);
    }
  }

  lemma AddPairs(u: Counts, v: Counts, w: Counts, su: Counts, sv: Counts, sw: Counts)
    requires u == Plus(v, w) && su == Plus(sv, sw)
    ensures Plus(u, su) == Plus(Plus(v, sv), Plus(w, sw))
  {
  }

  lemma ShareAdds(e: Entry, m: nat, n: nat, b: Bucket)
    ensures Share(e, m + n, b) == Plus(Share(e, m, b), Share(e, n, b))
  {
    if e.bucket == b {
      TimesAdd(m, n, e.counts);
    } else {
      PlusZero(ZERO);
    }
  }

  lemma SumAddsStep(es: seq<Entry>, u: seq<nat>, v: seq<nat>, w: seq<nat>, n: nat, b: Bucket)
    requires |u| == |v| == |w| == |es| && n < |es| && u[n] == v[n] + w[n]
    requires Sum(es, u, n, b) == Plus(Sum(es, v, n, b), Sum(es, w, n, b))
    ensures Sum(es, u, n + 1, b) == Plus(Sum(es, v, n + 1, b), Sum(es, w, n + 1, b))
  {
    ShareAdds(es[n], v[n], w[n], b);
    AddPairs(Sum(es, u, n, b), Sum(es, v, n, b), Sum(es, w, n, b),
             Share(es[n], u[n], b), Share(es[n], v[n], b), Share(es[n], w[n], b));
  }

  /** Weight vectors add up. */
  lemma {:induction false} SumAdds(es: seq<Entry>, u: seq<nat>, v: seq<nat>, w: seq<nat>, n: nat, b: Bucket)
    requires |u| == |v| == |w| == |es| && n <= |es|
    requires forall k :: 0 <= k < |es| ==> u[k] == v[k] + w[k]
    ensures Sum(es, u, n, b) == Plus(Sum(es, v, n, b), Sum(es, w, n, b))
  {
    if n != 0 {
      SumAdds(es, u, v, w, n - 1, b);
      SumAddsStep(es, u, v, w, n - 1, b);
    } else {
      PlusZero(ZERO);
    }
  }

  /** The table a weight vector describes is unique. */
  lemma CountedIsUnique(d1: map<Bucket, Counts>, d2: map<Bucket, Counts>, es: seq<Entry>, w: seq<nat>)
    requires |w| == |es| && Counted(d1, es, w) && Counted(d2, es, w)
    ensures d1 == d2
  {
    forall b | b in d1 || b in d2 ensures b in d1 && b in d2 && d1[b] == d2[b] {
      assert b in d1 <==> Touched(es, w, b);
      assert b in d2 <==> Touched(es, w, b);
      assert At(d1, b) == Weighted(es, w, b) == At(d2, b);
    }
  }

  // The reports column tells weight vectors apart.

  lemma {:induction false} ShareReports(e: Entry, n: nat, b: Bucket)
    requires e.counts.reports == 1
    ensures Share(e, n, b).reports == if e.bucket == b then n else 0
  {
    if n == 0 {
    } else {
      ShareReports(e, n - 1, b);
    }
  }

  ghost predicate Unit(es: seq<Entry>) {
    forall k :: 0 <= k < |es| ==> es[k].counts.reports == 1
  }

  ghost predicate Below(v: seq<nat>, w: seq<nat>) {
    |v| == |w| && forall k :: 0 <= k < |v| ==> v[k] <= w[k]
  }

  lemma {:induction false} ReportsOrdered(es: seq<Entry>, v: seq<nat>, w: seq<nat>, n: nat, b: Bucket)
    requires |v| == |w| == |es| && Unit(es) && Below(v, w) && n <= |es|
    ensures Sum(es, v, n, b).reports <= Sum(es, w, n, b).reports
    ensures (exists i :: 0 <= i < n && v[i] < w[i] && es[i].bucket == b)
            ==> Sum(es, v, n, b).reports < Sum(es, w, n, b).reports
  {
    if n == 0 {
    } else {
      ReportsOrdered(es, v, w, n - 1, b);
      ShareReports(es[n - 1], v[n - 1], b);
      ShareReports(es[n - 1], w[n - 1], b);
    }
  }

  /** Two tables whose weights are ordered are equal exactly when the weights are. */
  lemma EqualIffSameWeights(d1: map<Bucket, Counts>, d2: map<Bucket, Counts>, es: seq<Entry>, v: seq<nat>, w: seq<nat>)
    requires |v| == |w| == |es| && Unit(es) && Below(v, w)
    requires Counted(d1, es, v) && Counted(d2, es, w)
    ensures d1 == d2 <==> v == w
  {
    if v == w {
      CountedIsUnique(d1, d2, es, v);
    } else {
      var i :| 0 <= i < |v| && v[i] != w[i];
      ReportsOrdered(es, v, w, |es|, es[i].bucket);
      assert At(d1, es[i].bucket) == Weighted(es, v, es[i].bucket);
      assert At(d2, es[i].bucket) == Weighted(es, w, es[i].bucket);
    }
  }

  // What the health score relies on.

  predicate Sound(c: Counts) {
    && 0 <= c.aligned <= c.total
    && 0 <= c.dkim <= c.aligned && 0 <= c.spf <= c.aligned
    && c.aligned <= c.dkim + c.spf <= 2 * c.aligned
    && 0 <= c.none && 0 <= c.quarantine && 0 <= c.reject
    && c.none + c.quarantine + c.reject <= c.total
  }

  lemma {:induction false} TimesSound(n: nat, c: Counts)
    requires Sound(c)
    ensures Sound(Times(n, c))
  {
    if n == 0 {
    } else {
      TimesSound(n - 1, c);
    }
  }

  /** Sound entries make every bucket sound, whatever was lost or counted twice. */
  lemma {:induction false} SumSound(es: seq<Entry>, w: seq<nat>, n: nat, b: Bucket)
    requires n <= |es| && n <= |w| && forall i :: 0 <= i < |es| ==> Sound(es[i].counts)
    ensures Sound(Sum(es, w, n, b))
  {
    if n == 0 {
    } else {
      SumSound(es, w, n - 1, b);
      TimesSound(w[n - 1], es[n - 1].counts);
    }
  }
}
