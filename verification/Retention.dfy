/** The raw document purge: batches of at most a fixed number of rows, each chosen
    by the database in no particular order (parser/internal/retention/retention.go). */
module Retention {
  import opened Reports

  /** A report row: when it was stored, and its document if still there. */
  datatype Row = Row(seen: int, raw: Doc)

  datatype Doc = Gone | Kept(xml: string)

  predicate Stale(row: Row, cutoff: int) { row.seen < cutoff && row.raw.Kept? }

  function StaleIn(rows: seq<Row>, cutoff: int): set<int> {
    set i | 0 <= i < |rows| && Stale(rows[i], cutoff)
  }

  /** The rows with documents older than the cutoff nulled. */
  function Purged(rows: seq<Row>, cutoff: int): seq<Row> {
    seq(|rows|, i requires 0 <= i < |rows| => if Stale(rows[i], cutoff) then rows[i].(raw := Gone) else rows[i])
  }

  function Nulled(rows: seq<Row>, chosen: set<int>): seq<Row> {
    seq(|rows|, i requires 0 <= i < |rows| => if i in chosen then rows[i].(raw := Gone) else rows[i])
  }

  lemma {:induction false} SubsetOfSize(all: set<int>, n: nat) returns (part: set<int>)
    requires n <= |all|
    ensures part <= all && |part| == n
  {
    if n == 0 {
      part := {};
    } else {
      var x := Pick(all);
      part := SubsetOfSize(all - {x}, n - 1);
      part := part + {x};
    }
  }

  lemma SubsetSize(a: set<int>, b: set<int>)
    requires a <= b
    ensures |a| <= |b| && |b - a| == |b| - |a| && (|a| == |b| ==> a == b)
  {
    assert b == a + (b - a);
  }

  /** Nulling some stale rows leaves the others stale, and leads to the same end. */
  lemma NulledStep(rows: seq<Row>, cutoff: int, chosen: set<int>)
    requires chosen <= StaleIn(rows, cutoff)
    ensures StaleIn(Nulled(rows, chosen), cutoff) == StaleIn(rows, cutoff) - chosen
    ensures Purged(Nulled(rows, chosen), cutoff) == Purged(rows, cutoff)
  {
    var t := Nulled(rows, chosen);
    forall i | 0 <= i < |rows| ensures Stale(t[i], cutoff) <==> Stale(rows[i], cutoff) && i !in chosen {
      assert i in StaleIn(rows, cutoff) <==> Stale(rows[i], cutoff);
    }
  }

  lemma NothingStale(rows: seq<Row>, cutoff: int)
    requires StaleIn(rows, cutoff) == {}
    ensures Purged(rows, cutoff) == rows
  {
    forall i | 0 <= i < |rows| ensures !Stale(rows[i], cutoff) {
      assert i !in StaleIn(rows, cutoff);
    }
  }

  class ReportTable {
    var rows: seq<Row>

    constructor (rows: seq<Row>)
      ensures this.rows == rows
    {
      this.rows := rows;
    }

    /** One UPDATE: as many stale rows as there are, but no more than limit. */
    method PurgeBatch(cutoff: int, limit: nat) returns (n: nat)
      modifies this
      ensures exists chosen ::
        chosen <= StaleIn(old(rows), cutoff) && |chosen| == n && rows == Nulled(old(rows), chosen)
      ensures n == if |StaleIn(old(rows), cutoff)| < limit then |StaleIn(old(rows), cutoff)| else limit
    {
      var stale := StaleIn(rows, cutoff);
      n := if |stale| < limit then |stale| else limit;
      ghost var witness' := SubsetOfSize(stale, n);
      var chosen: set<int> :| chosen <= stale && |chosen| == n;
      rows := Nulled(rows, chosen);
    }

    /** Batches until one is short. fates(k) is how the k-th statement ends, and
        cancelled(k) says whether the context is done after k statements. Whatever the
        database picks, an uninterrupted purge nulls exactly the documents older than
        the cutoff and reports their number, in one statement more than the number of
        full batches; one that ends early reports all it did but a batch whose answer
        was lost. */
    method PurgeRawXML(cutoff: int, limit: nat, fates: nat -> Commit, cancelled: nat -> bool)
      returns (total: nat, ok: bool, statements: nat)
      requires limit > 0
      modifies this
      ensures Purged(rows, cutoff) == Purged(old(rows), cutoff)
      ensures StaleIn(rows, cutoff) <= StaleIn(old(rows), cutoff)
      ensures var gone := |StaleIn(old(rows), cutoff)| - |StaleIn(rows, cutoff)|;
        if !ok && fates(statements).Unacked? then total <= gone <= total + limit else total == gone
      ensures ok ==> rows == Purged(old(rows), cutoff) && total == |StaleIn(old(rows), cutoff)|
      ensures ok ==> |rows| == |old(rows)| && forall i :: 0 <= i < |rows| ==>
        rows[i] == if old(rows)[i].seen < cutoff then old(rows)[i].(raw := Gone) else old(rows)[i]
      ensures ok ==> (statements - 1) * limit <= total < statements * limit
      ensures (forall k :: fates(k).Applied? && !cancelled(k)) ==> ok
    {
      total, statements := 0, 0;
      while true
        invariant Purged(rows, cutoff) == Purged(old(rows), cutoff)
        invariant StaleIn(rows, cutoff) <= StaleIn(old(rows), cutoff)
        invariant total == |StaleIn(old(rows), cutoff)| - |StaleIn(rows, cutoff)| && total == statements * limit
        decreases |StaleIn(rows, cutoff)|
      {
        if fates(statements).NotApplied? {
          return total, false, statements;
        }
        ghost var before := rows;
        var n := PurgeBatch(cutoff, limit);
        BatchProgress(before, rows, cutoff, n);
        if fates(statements).Unacked? {
          return total, false, statements;
        }
        NextStatement(statements, limit);
        total, statements := total + n, statements + 1;
        if n < limit {
          NothingStale(rows, cutoff);
          return total, true, statements;
        }
        if cancelled(statements) {
          return total, false, statements;
        }
      }
    }
  }

  lemma NextStatement(k: nat, limit: nat)
    ensures (k + 1) * limit == k * limit + limit
  {
  }

  lemma BatchProgress(before: seq<Row>, after: seq<Row>, cutoff: int, n: nat)
    requires exists chosen :: chosen <= StaleIn(before, cutoff) && |chosen| == n && after == Nulled(before, chosen)
    ensures Purged(after, cutoff) == Purged(before, cutoff)
    ensures StaleIn(after, cutoff) <= StaleIn(before, cutoff)
    ensures |StaleIn(after, cutoff)| == |StaleIn(before, cutoff)| - n
    ensures n == |StaleIn(before, cutoff)| ==> StaleIn(after, cutoff) == {}
  {
    var chosen :| chosen <= StaleIn(before, cutoff) && |chosen| == n && after == Nulled(before, chosen);
    NulledStep(before, cutoff, chosen);
    SubsetSize(chosen, StaleIn(before, cutoff));
  }
}
