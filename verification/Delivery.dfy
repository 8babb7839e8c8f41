/** send and replayWebhooks as they are written, each shown to take only steps of
    the delivery machine. */
module Delivery {
  import opened Webhooks
  import opened WebhookTheorems

  /** The phase of a send whose n attempts have all failed. */
  function AfterFailure(hasStore: bool, n: nat): Phase {
    if n < ATTEMPTS then Trying(n) else if hasStore then Exhausted else Dropped
  }

  /** How many of the first n requests arrive. */
  function Arrivals(replies: nat -> Reply, n: nat): nat {
    if n == 0 then 0 else Arrivals(replies, n - 1) + if replies(n).Missed? then 0 else 1
  }

  lemma AttemptStep(s: State, i: nat, reply: Reply)
    requires i < |s.sends| && s.sends[i].phase.Trying?
    ensures var t, x, n := Do(s, Attempt(i, reply)), Requested(s.sends[i], reply), s.sends[i].phase.failed + 1;
      && t.(sends := s.sends, failures := s.failures) == s
      && |t.sends| == |s.sends|
      && t.failures == s.failures + (if !reply.Heard? && n >= ATTEMPTS then 1 else 0)
      && t.sends[i] == x.(phase := if reply.Heard? then Delivered else AfterFailure(s.hasStore, n))
  {
  }

  /** Filing an exhausted send: the row, and the counter if the insert said so. */
  lemma FileStep(s: State, i: nat, result: Insertion)
    requires i < |s.sends| && s.sends[i].phase.Exhausted?
    ensures var t, x := Do(s, Insert(i, result)), s.sends[i];
      && t.(sends := s.sends, rows := s.rows) == s && |t.sends| == |s.sends|
      && t.sends[i].arrivals == x.arrivals
      && t.rows == s.rows + (if result.Rejected? then [] else [Letter(i, x.url, x.kind, x.payload, false)])
      && (result.Stored? ==>
            && t.sends[i].phase.Parked?
            && var u := Do(t, Count(i));
               u.(sends := t.sends, deadletters := t.deadletters) == t && |u.sends| == |t.sends|
                 && u.sends[i].arrivals == x.arrivals
                 && u.deadletters == t.deadletters + 1)
  {
  }

  lemma ListStep(s: State)
    ensures Do(s, List) == s.(calls := s.calls + [Call(Oldest(s.rows, |s.rows|, PAGE), 0, false, 0, 0)])
  {
  }

  lemma VisitStep(s: State, c: nat, reply: Reply)
    requires Inv(s) && c < |s.calls| && !s.calls[c].marking && s.calls[c].next < |s.calls[c].ids|
    ensures Current(s, c) < |s.rows|
    ensures var t, k, l := Do(s, Visit(c, reply)), s.calls[c], s.rows[Current(s, c)];
      && t.(sends := s.sends, calls := s.calls) == s && |t.calls| == |s.calls|
      && t.calls[c] == if l.endpoint == "" || !reply.Heard? then Advance(k, false) else k.(marking := true)
  {
    assert CallOk(s, c);
    assert RowOk(s, Current(s, c));
  }

  lemma MarkStep(s: State, c: nat, ok: bool)
    requires Inv(s) && c < |s.calls| && s.calls[c].marking && s.calls[c].next < |s.calls[c].ids|
    ensures Current(s, c) < |s.rows|
    ensures var t, k, r := Do(s, Mark(c, ok)), s.calls[c], Current(s, c);
      && t.(rows := s.rows, calls := s.calls) == s && |t.calls| == |s.calls|
      && t.calls[c] == Advance(k, true)
      && t.rows == if ok then s.rows[r := s.rows[r].(replayed := true)] else s.rows
  {
    assert CallOk(s, c);
  }

  /** What a replay that has worked through the first n listed rows leaves. */
  ghost predicate Swept(before: seq<Letter>, after: seq<Letter>, ids: seq<nat>, n: nat, works: nat -> bool)
    requires n <= |ids|
  {
    && |after| == |before|
    && forall r :: 0 <= r < |before| ==>
         after[r] == before[r].(replayed := before[r].replayed
           || (r in ids[..n] && before[r].endpoint != "" && works(r)))
  }

  lemma PageSize(rows: seq<Letter>)
    ensures |Oldest(rows, |rows|, PAGE)| == if Rank(rows, |rows|) < PAGE then Rank(rows, |rows|) else PAGE
  {
    if rows != [] { OldestIff(rows, |rows|, PAGE, 0); }
  }

  lemma SweptNone(rows: seq<Letter>, ids: seq<nat>, works: nat -> bool)
    ensures Swept(rows, rows, ids, 0, works)
  {
  }

  lemma SweptStep(before: seq<Letter>, after: seq<Letter>, ids: seq<nat>, n: nat, works: nat -> bool)
    requires n < |ids| && ids[n] < |before| && Swept(before, after, ids, n, works)
    ensures |after| == |before| && after[ids[n]].endpoint == before[ids[n]].endpoint
    ensures before[ids[n]].endpoint != "" && works(ids[n]) ==>
      Swept(before, after[ids[n] := after[ids[n]].(replayed := true)], ids, n + 1, works)
    ensures !(before[ids[n]].endpoint != "" && works(ids[n])) ==> Swept(before, after, ids, n + 1, works)
  {
    assert ids[..n + 1] == ids[..n] + [ids[n]];
  }

  /** After a sweep of a whole page, a row is replayed exactly when it was, or it
      was on the page, has an endpoint, was delivered and was marked. */
  lemma SweptPage(before: seq<Letter>, after: seq<Letter>, works: nat -> bool)
    requires var ids := Oldest(before, |before|, PAGE); Swept(before, after, ids, |ids|, works)
    ensures |after| == |before|
    ensures forall r :: 0 <= r < |before| ==>
      after[r] == before[r].(replayed := before[r].replayed
        || (Picked(before, r) && before[r].endpoint != "" && works(r)))
  {
    var ids := Oldest(before, |before|, PAGE);
    assert ids[..|ids|] == ids;
    forall r | 0 <= r < |before| ensures r in ids <==> Picked(before, r) { OldestIff(before, |before|, PAGE, r); }
  }

  /** While every endpoint answers and every mark is stored, a call clears one
      full page: after it, 500 fewer rows wait, or none. */
  lemma {:induction false} FullPageClears(before: seq<Letter>, after: seq<Letter>, n: nat)
    requires n <= |before| == |after|
    requires forall r :: 0 <= r < |before| ==> (after[r].replayed <==> before[r].replayed || Picked(before, r))
    ensures Rank(after, n) == if Rank(before, n) <= 500 then 0 else Rank(before, n) - 500
  {
    if n == 0 {
    } else {
      FullPageClears(before, after, n - 1);
    }
  }

  class Notifier {
    const hasStore: bool
    var rows: seq<Letter>
    var failures: int
    var deadletters: int
    ghost var net: State

    ghost predicate Valid()
      reads this
    {
      && Inv(net) && net.hasStore == hasStore
      && rows == net.rows && failures == net.failures && deadletters == net.deadletters
    }

    constructor (hasStore: bool)
      ensures Valid() && net == Start(hasStore)
    {
      this.hasStore, rows, failures, deadletters, net := hasStore, [], 0, 0, Start(hasStore);
    }

    ghost method Step(a: Action, before: State, acts: seq<Action>) returns (more: seq<Action>)
      requires Inv(net) && net == Run(before, acts)
      modifies this`net
      ensures net == Do(old(net), a) && Inv(net) && more == acts + [a] && net == Run(before, more)
    {
      RunSnoc(before, acts, a);
      StepKeepsInv(net, a);
      net := Do(net, a);
      more := acts + [a];
    }

    /** Three attempts with growing pauses, then the failure counter, then the
        dead letter row, then its counter. replies(k) is the fate of attempt k. The
        endpoint has received every request that was not missed. */
    method Send(i: nat, url: string, kind: string, payload: string, replies: nat -> Reply, result: Insertion)
      returns (delivered: bool, attempts: nat, slept: nat, ghost acts: seq<Action>)
      requires Valid() && i < |net.sends|
      requires net.sends[i] == Webhooks.Send(url, kind, payload, net.life, Trying(0), 0, 0)
      modifies this
      ensures Valid() && net == Run(old(net), acts) && |net.sends| == |old(net).sends|
      ensures 1 <= attempts <= 3 && slept == (if attempts == 1 then 0 else if attempts == 2 then 2 else 10)
      ensures forall k :: 1 <= k < attempts ==> !replies(k).Heard?
      ensures delivered <==> replies(attempts).Heard?
      ensures net.sends[i].arrivals == Arrivals(replies, attempts)
      ensures !delivered ==> attempts == 3
      ensures delivered ==> rows == old(rows) && failures == old(failures) && deadletters == old(deadletters)
      ensures delivered ==> net.sends[i].phase == Delivered
      ensures !delivered ==> failures == old(failures) + 1
      ensures !delivered ==>
          rows == old(rows) + if hasStore && !result.Rejected? then [Letter(i, url, kind, payload, false)] else []
      ensures !delivered ==> deadletters == old(deadletters) + if hasStore && result.Stored? then 1 else 0
    {
      hide Run, Inv, Do;
      acts := [];
      RunNil(net);
      ghost var x := net.sends[i];
      attempts, slept := 1, 0;
      var delay := 2;
      while attempts <= ATTEMPTS
        invariant Valid() && net == Run(old(net), acts) && |net.sends| == |old(net).sends|
        invariant 1 <= attempts <= ATTEMPTS + 1 && forall k :: 1 <= k < attempts ==> !replies(k).Heard?
        invariant net.sends[i]
          == x.(phase := AfterFailure(hasStore, attempts - 1), arrivals := Arrivals(replies, attempts - 1))
        invariant failures == old(failures) + if attempts <= ATTEMPTS then 0 else 1
        invariant rows == old(rows) && deadletters == old(deadletters)
        invariant attempts == 1 ==> slept == 0 && delay == 2
        invariant attempts == 2 ==> slept == 2 && delay == 8
        invariant attempts >= 3 ==> slept == 10
      {
        var reply := replies(attempts);
        AttemptStep(net, i, reply);
        acts := Step(Attempt(i, reply), old(net), acts);
        if reply.Heard? {
          delivered := true;
          return;
        }
        if attempts < ATTEMPTS {
          slept := slept + delay;
        } else {
          failures := failures + 1;
        }
        attempts, delay := attempts + 1, delay * 4;
      }
      attempts := ATTEMPTS;
      delivered := false;
      if hasStore {
        FileStep(net, i, result);
        acts := Step(Insert(i, result), old(net), acts);
        if !result.Rejected? {
          rows := rows + [Letter(i, url, kind, payload, false)];
        }
        if result.Stored? {
          acts := Step(Count(i), old(net), acts);
          deadletters := deadletters + 1;
        }
      }
    }

    /** The replay endpoint: one page of the oldest unreplayed rows, each tried
        once. replies(r) and marks(r) are the fates of row r. */
    method Replay(replies: nat -> Reply, marks: nat -> bool)
      returns (pending: nat, replayed: nat, failed: nat, ghost acts: seq<Action>)
      requires Valid()
      modifies this
      ensures Valid() && net == Run(old(net), acts)
      ensures pending == (if Rank(old(rows), |old(rows)|) < 500 then Rank(old(rows), |old(rows)|) else 500)
      ensures replayed + failed == pending
      ensures |rows| == |old(rows)|
      ensures forall r :: 0 <= r < |rows| ==>
        rows[r] == old(rows)[r].(replayed := old(rows)[r].replayed
          || (Picked(old(rows), r) && old(rows)[r].endpoint != "" && replies(r).Heard? && marks(r)))
      ensures failures == old(failures) && deadletters == old(deadletters)
    {
      hide Run, Inv, Do, Swept, Oldest, Rank, Picked;
      acts := [];
      RunNil(net);
      ListStep(net);
      ghost var c := |net.calls|;
      acts := Step(List, old(net), acts);
      var ids := Oldest(rows, |rows|, PAGE);
      OldestInRange(rows, |rows|, PAGE);
      PageSize(rows);
      replayed, failed := 0, 0;
      ghost var works := (r: nat) => replies(r).Heard? && marks(r);
      var k := 0;
      SweptNone(rows, ids, works);
      while k < |ids|
        invariant k <= |ids| && Valid() && net == Run(old(net), acts)
        invariant c < |net.calls| && net.calls[c] == Call(ids, k, false, replayed, failed)
        invariant Swept(old(rows), rows, ids, k, works) && |rows| == |old(rows)|
        invariant replayed + failed == k
        invariant failures == old(failures) && deadletters == old(deadletters)
      {
        var r := ids[k];
        SweptStep(old(rows), rows, ids, k, works);
        if rows[r].endpoint == "" {
          VisitStep(net, c, Missed);
          acts := Step(Visit(c, Missed), old(net), acts);
          failed, k := failed + 1, k + 1;
          continue;
        }
        VisitStep(net, c, replies(r));
        acts := Step(Visit(c, replies(r)), old(net), acts);
        if !replies(r).Heard? {
          failed, k := failed + 1, k + 1;
          continue;
        }
        MarkStep(net, c, marks(r));
        acts := Step(Mark(c, marks(r)), old(net), acts);
        if marks(r) {
          rows := rows[r := rows[r].(replayed := true)];
        }
        replayed, k := replayed + 1, k + 1;
      }
      SweptPage(old(rows), rows, works);
      pending := |ids|;
    }
  }
}
