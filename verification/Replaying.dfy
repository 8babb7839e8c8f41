/** Which dead letters replay calls get through, and which they never reach. Bad
    endpoints fail from here on, all others answer. */
module Replaying {
  import opened Webhooks
  import opened WebhookTheorems

  // --- what one call achieves ---

  /** Between listing and the end of a call: every row stays, and every row of a
      good endpoint that was on the page is replayed. */
  ghost predicate Cleared(before: seq<Letter>, after: seq<Letter>, bad: set<string>) {
    && Extends(before, after)
    && forall x :: 0 <= x < |before| && Picked(before, x) && !Bad(bad, before[x]) ==> after[x].replayed
  }

  ghost predicate Extends(before: seq<Letter>, after: seq<Letter>) {
    |before| <= |after| && forall x :: 0 <= x < |before| ==> SameRow(before[x], after[x])
  }

  /** If no row of the first n was listed in vain, the page or all that waits is
      gone; each bad row costs one place. */
  lemma {:induction false} PlacesGained(before: seq<Letter>, after: seq<Letter>, n: nat, bad: set<string>)
    requires Cleared(before, after, bad) && n <= |before|
    ensures Rank(before, n) - Rank(after, n)
      >= (if Rank(before, n) < PAGE then Rank(before, n) else PAGE) - BadRank(before, n, bad)
    ensures BadRank(after, n, bad) <= BadRank(before, n, bad) && Rank(after, n) <= Rank(before, n)
  {
    if n == 0 {
    } else {
      PlacesGained(before, after, n - 1, bad);
      assert SameRow(before[n - 1], after[n - 1]);
    }
  }

  /** A row of a good endpoint with less than a page of bad rows before it is
      replayed or moves up. */
  lemma MovesUp(before: seq<Letter>, after: seq<Letter>, r: nat, bad: set<string>)
    requires Cleared(before, after, bad) && r < |before| && !Bad(bad, before[r]) && BadRank(before, r, bad) < PAGE
    ensures after[r].replayed || Rank(after, r) < Rank(before, r)
    ensures !Bad(bad, after[r]) && BadRank(after, r, bad) < PAGE
  {
    PlacesGained(before, after, r, bad);
    assert SameRow(before[r], after[r]);
    assert Picked(before, r) ==> after[r].replayed;
  }

  /** Call after call, ts[i] the table when call i lists: such a row is replayed
      within one call more than there are rows waiting before it. New rows, other
      calls and senders may do what they like in between. */
  lemma {:induction false} Served(ts: seq<seq<Letter>>, i: nat, r: nat, bad: set<string>)
    requires forall k :: 0 <= k < |ts| - 1 ==> Cleared(ts[k], ts[k + 1], bad)
    requires i < |ts| && r < |ts[i]| && !Bad(bad, ts[i][r]) && BadRank(ts[i], r, bad) < PAGE
    requires i + Rank(ts[i], r) + 1 < |ts|
    ensures r < |ts[i + Rank(ts[i], r) + 1]| && ts[i + Rank(ts[i], r) + 1][r].replayed
    decreases Rank(ts[i], r)
  {
    var last := i + Rank(ts[i], r) + 1;
    assert Cleared(ts[i], ts[i + 1], bad);
    MovesUp(ts[i], ts[i + 1], r, bad);
    if ts[i + 1][r].replayed {
      StaysReplayed(ts, i + 1, last, r, bad);
    } else {
      Served(ts, i + 1, r, bad);
      StaysReplayed(ts, i + 1 + Rank(ts[i + 1], r) + 1, last, r, bad);
    }
  }

  lemma {:induction false} StaysReplayed(ts: seq<seq<Letter>>, i: nat, j: nat, r: nat, bad: set<string>)
    requires forall k :: 0 <= k < |ts| - 1 ==> Cleared(ts[k], ts[k + 1], bad)
    requires i <= j < |ts| && r < |ts[i]| && ts[i][r].replayed
    ensures r < |ts[j]| && ts[j][r].replayed
  {
    if i == j {
    } else {
      StaysReplayed(ts, i, j - 1, r, bad);
      assert Cleared(ts[j - 1], ts[j], bad) && SameRow(ts[j - 1][r], ts[j][r]);
    }
  }

  // --- exactly when ---

  /** The table after a call that nothing else interferes with. */
  function Sweep(rows: seq<Letter>, bad: set<string>): seq<Letter> {
    seq(|rows|, x requires 0 <= x < |rows| =>
      if Picked(rows, x) && !Bad(bad, rows[x]) then rows[x].(replayed := true) else rows[x])
  }

  function Sweeps(rows: seq<Letter>, n: nat, bad: set<string>): (after: seq<Letter>)
    ensures |after| == |rows|
  {
    if n == 0 then rows else Sweep(Sweeps(rows, n - 1, bad), bad)
  }

  lemma SweepStarves(rows: seq<Letter>, r: nat, bad: set<string>)
    requires r < |rows| && !rows[r].replayed && PAGE <= BadRank(rows, r, bad)
    ensures !Sweep(rows, bad)[r].replayed && PAGE <= BadRank(Sweep(rows, bad), r, bad)
  {
    hide BadRank, Rank;
    BadRankBelow(rows, r, bad);
    BadRankKept(rows, Sweep(rows, bad), r, bad);
  }

  lemma {:induction false} SweepsStarve(rows: seq<Letter>, n: nat, r: nat, bad: set<string>)
    requires r < |rows| && !rows[r].replayed && PAGE <= BadRank(rows, r, bad)
    ensures !Sweeps(rows, n, bad)[r].replayed && PAGE <= BadRank(Sweeps(rows, n, bad), r, bad)
  {
    if n == 0 {
    } else {
      SweepsStarve(rows, n - 1, r, bad);
      SweepStarves(Sweeps(rows, n - 1, bad), r, bad);
      hide Sweep, BadRank;
    }
  }

  lemma {:induction false} SweepsClear(rows: seq<Letter>, n: nat, bad: set<string>)
    ensures Cleared(Sweeps(rows, n, bad), Sweeps(rows, n + 1, bad), bad)
  {
  }

  lemma ServedBySweeps(rows: seq<Letter>, r: nat, bad: set<string>)
    requires r < |rows| && !Bad(bad, rows[r]) && BadRank(rows, r, bad) < PAGE
    ensures Sweeps(rows, Rank(rows, r) + 1, bad)[r].replayed
  {
    var last := Rank(rows, r) + 1;
    var ts := Tables(rows, last, bad);
    forall k | 0 <= k < |ts| - 1 ensures Cleared(ts[k], ts[k + 1], bad) { SweepsClear(rows, k, bad); }
    NoSweep(rows, bad);
    hide *;
    Served(ts, 0, r, bad);
  }

  /** The tables before each of n calls, and after the last. */
  function Tables(rows: seq<Letter>, n: nat, bad: set<string>): (ts: seq<seq<Letter>>)
    ensures |ts| == n + 1 && forall i :: 0 <= i <= n ==> ts[i] == Sweeps(rows, i, bad)
  {
    seq(n + 1, i requires 0 <= i => Sweeps(rows, i, bad))
  }

  lemma NoSweep(rows: seq<Letter>, bad: set<string>)
    ensures Sweeps(rows, 0, bad) == rows
  {
  }

  ghost predicate EverReplayed(rows: seq<Letter>, r: nat, bad: set<string>)
    requires r < |rows|
  {
    exists n: nat :: Sweeps(rows, n, bad)[r].replayed
  }

  /** Every dead letter of a good endpoint is replayed, in time, exactly when fewer
      than a page of older rows belong to endpoints that stay down: then it takes at
      most one call more than there are rows waiting before it, otherwise no number
      of calls is enough. */
  lemma ReplayedIff(rows: seq<Letter>, r: nat, bad: set<string>)
    requires r < |rows| && !rows[r].replayed && !Bad(bad, rows[r])
    ensures Sweeps(rows, Rank(rows, r) + 1, bad)[r].replayed <==> BadRank(rows, r, bad) < 500
    ensures EverReplayed(rows, r, bad) <==> BadRank(rows, r, bad) < 500
  {
    hide Sweeps, Rank, BadRank;
    if BadRank(rows, r, bad) < PAGE {
      ServedBySweeps(rows, r, bad);
    } else {
      forall n: nat ensures !Sweeps(rows, n, bad)[r].replayed { SweepsStarve(rows, n, r, bad); }
    }
  }

  /** The replay endpoint's loop does such a sweep when good endpoints answer, bad
      ones do not, and marks are stored. */
  lemma ReplayIsSweep(before: seq<Letter>, after: seq<Letter>, replies: nat -> Reply, marks: nat -> bool,
      bad: set<string>)
    requires |after| == |before| && forall x :: 0 <= x < |before| ==>
      after[x] == before[x].(replayed := before[x].replayed
        || (Picked(before, x) && before[x].endpoint != "" && replies(x).Heard? && marks(x)))
    requires forall x :: 0 <= x < |before| && before[x].endpoint != "" ==>
        (replies(x).Heard? <==> !Bad(bad, before[x])) && marks(x)
    ensures after == Sweep(before, bad)
  {
  }

  // --- a call among everything else that goes on ---

  /** While call c is at work the process lives, good endpoints answer it, and its
      marks are stored. */
  predicate Serves(s: State, a: Action, c: nat, bad: set<string>) {
    match a
    case Crash => false
    case Visit(d, reply) => d == c && CanVisit(s, c) && !Bad(bad, s.rows[Current(s, c)]) ==> reply.Heard?
    case Mark(d, ok) => d == c ==> ok
    case _ => true
  }

  ghost predicate Serving(s: State, acts: seq<Action>, c: nat, bad: set<string>) {
    forall n :: 0 <= n < |acts| ==> Serves(Run(s, acts[..n]), acts[n], c, bad)
  }

  /** The good rows the call has passed are replayed. */
  ghost predicate CallServes(s: State, c: nat, ids: seq<nat>, bad: set<string>) {
    && c < |s.calls| && s.calls[c].ids == ids && s.calls[c].next <= |ids|
    && forall k :: 0 <= k < s.calls[c].next ==>
        ids[k] < |s.rows| && (Bad(bad, s.rows[ids[k]]) || s.rows[ids[k]].replayed)
  }

  lemma StepServes(s: State, a: Action, c: nat, ids: seq<nat>, bad: set<string>)
    requires Inv(s) && CallServes(s, c, ids, bad) && Serves(s, a, c, bad)
    ensures CallServes(Do(s, a), c, ids, bad)
  {
    var t := Do(s, a);
    StepKeepsRows(s, a);
    assert CallOk(s, c);
    forall k | 0 <= k < s.calls[c].next
      ensures ids[k] < |t.rows| && (Bad(bad, t.rows[ids[k]]) || t.rows[ids[k]].replayed) {
      assert SameRow(s.rows[ids[k]], t.rows[ids[k]]);
    }
    CallAdvances(s, a, c);
  }

  /** A call moves on past a row that is bad, or that it has just marked. */
  lemma CallAdvances(s: State, a: Action, c: nat)
    requires Inv(s) && c < |s.calls| && !a.Crash?
    ensures var t, k := Do(s, a), s.calls[c];
      && c < |t.calls| && t.calls[c].ids == k.ids && k.next <= t.calls[c].next <= |k.ids|
      && (t.calls[c].next != k.next ==>
            && t.calls[c].next == k.next + 1 && k.next < |k.ids| && k.ids[k.next] < |s.rows|
            && ((a.Visit? && a.c == c && CanVisit(s, c) && (!a.reply.Heard? || s.rows[k.ids[k.next]].endpoint == ""))
                || a == Mark(c, false)
                || (a == Mark(c, true) && k.ids[k.next] < |t.rows| && t.rows[k.ids[k.next]].replayed)))
  {
    assert CallOk(s, c);
  }

  lemma {:induction false} RunServes(s: State, acts: seq<Action>, c: nat, ids: seq<nat>, bad: set<string>)
    requires Inv(s) && CallServes(s, c, ids, bad) && Serving(s, acts, c, bad)
    ensures CallServes(Run(s, acts), c, ids, bad)
  {
    if acts == [] {
    } else {
      var n := |acts| - 1;
      ServingFront(s, acts, c, bad);
      RunServes(s, acts[..n], c, ids, bad);
      RunKeepsInv(s, acts[..n]);
      StepServes(Run(s, acts[..n]), acts[n], c, ids, bad);
    }
  }

  lemma ServingFront(s: State, acts: seq<Action>, c: nat, bad: set<string>)
    requires Serving(s, acts, c, bad) && acts != []
    ensures Serving(s, acts[..|acts| - 1], c, bad) && Serves(Run(s, acts[..|acts| - 1]), acts[|acts| - 1], c, bad)
  {
    var n := |acts| - 1;
    assert forall m :: 0 <= m < n ==> acts[..n][..m] == acts[..m] && acts[..n][m] == acts[m];
    assert forall m :: 0 <= m < n ==> Serves(Run(s, acts[..m]), acts[m], c, bad);
  }

  /** A call that is listed in a reachable state and comes to its end, with any other
      senders and calls at work beside it, has cleared its page. */
  lemma FinishedCallClears(s: State, acts: seq<Action>, bad: set<string>)
    requires Reachable(s)
    requires var c := |s.calls|;
            var t := Run(Do(s, List), acts);
      Serving(Do(s, List), acts, c, bad) && c < |t.calls| && t.calls[c].next == |t.calls[c].ids|
    ensures Cleared(s.rows, Run(Do(s, List), acts).rows, bad)
  {
    var c, ids := |s.calls|, Oldest(s.rows, |s.rows|, PAGE);
    ReachableInv(s);
    StepKeepsInv(s, List);
    RunServes(Do(s, List), acts, c, ids, bad);
    RunKeepsRows(Do(s, List), acts);
    PageCleared(s.rows, Run(Do(s, List), acts), c, ids, bad);
  }

  lemma PageCleared(before: seq<Letter>, t: State, c: nat, ids: seq<nat>, bad: set<string>)
    requires ids == Oldest(before, |before|, PAGE) && CallServes(t, c, ids, bad) && t.calls[c].next == |ids|
    requires Extends(before, t.rows)
    ensures Cleared(before, t.rows, bad)
  {
    forall x | 0 <= x < |before| && Picked(before, x) && !Bad(bad, before[x]) ensures t.rows[x].replayed {
      OldestIff(before, |before|, PAGE, x);
      assert x in ids;
      var k :| 0 <= k < |ids| && ids[k] == x;
      assert SameRow(before[x], t.rows[x]);
    }
  }

  /** And stays so until the next call lists, whatever happens in between. */
  lemma ClearedStays(s: State, t: State, acts: seq<Action>, bad: set<string>)
    requires Cleared(s.rows, t.rows, bad)
    ensures Cleared(s.rows, Run(t, acts).rows, bad)
  {
    RunKeepsRows(t, acts);
    var after := Run(t, acts).rows;
    forall x | 0 <= x < |s.rows| ensures SameRow(s.rows[x], after[x]) && (t.rows[x].replayed ==> after[x].replayed) {
      assert SameRow(s.rows[x], t.rows[x]) && SameRow(t.rows[x], after[x]);
    }
  }

  // --- calls one after the other, in one run of the machine ---

  /** Anything at all, then a call that lists and comes to its end, with anything
      that lets it do its work going on beside it. */
  datatype Round = Round(before: seq<Action>, during: seq<Action>)

  function Listing(s: State, round: Round): State { Run(s, round.before) }

  function Play(s: State, round: Round): State { Run(Do(Listing(s, round), List), round.during) }

  ghost predicate Completes(s: State, round: Round, bad: set<string>) {
    var t, u := Listing(s, round), Play(s, round);
    var c := |t.calls|;
    Serving(Do(t, List), round.during, c, bad) && c < |u.calls| && u.calls[c].next == |u.calls[c].ids|
  }

  function PlayAll(s: State, rounds: seq<Round>): State {
    if rounds == [] then s else Play(PlayAll(s, rounds[..|rounds| - 1]), rounds[|rounds| - 1])
  }

  ghost predicate AllComplete(s: State, rounds: seq<Round>, bad: set<string>) {
    forall n :: 0 <= n < |rounds| ==> Completes(PlayAll(s, rounds[..n]), rounds[n], bad)
  }

  lemma {:induction false} RanksFall(before: seq<Letter>, after: seq<Letter>, n: nat, bad: set<string>)
    requires Extends(before, after) && n <= |before|
    ensures Rank(after, n) <= Rank(before, n) && BadRank(after, n, bad) <= BadRank(before, n, bad)
  {
    if n == 0 {
    } else {
      RanksFall(before, after, n - 1, bad);
      assert SameRow(before[n - 1], after[n - 1]);
    }
  }

  /** The row is replayed, or it is served by a good endpoint, less than a page of
      bad rows is before it, and at most `left` rows wait before it. */
  ghost predicate Advancing(rows: seq<Letter>, r: nat, bad: set<string>, left: int) {
    && r < |rows|
    && (rows[r].replayed || (!Bad(bad, rows[r]) && BadRank(rows, r, bad) < PAGE && Rank(rows, r) <= left))
  }

  lemma AdvancingStays(before: seq<Letter>, after: seq<Letter>, r: nat, bad: set<string>, left: int)
    requires Advancing(before, r, bad, left) && Extends(before, after)
    ensures Advancing(after, r, bad, left)
  {
    RanksFall(before, after, r, bad);
    assert SameRow(before[r], after[r]);
  }

  /** A round brings the row one place forward. */
  lemma RoundAdvances(s: State, round: Round, r: nat, bad: set<string>, left: int)
    requires Reachable(s) && Advancing(s.rows, r, bad, left) && Completes(s, round, bad)
    ensures Reachable(Play(s, round)) && Advancing(Play(s, round).rows, r, bad, left - 1)
  {
    var t, u := Listing(s, round), Play(s, round);
    ReachableRun(s, round.before);
    ReachableDo(t, List);
    ReachableRun(Do(t, List), round.during);
    RunKeepsRows(s, round.before);
    FinishedCallClears(t, round.during, bad);
    hide Run, Do, Reachable, Rank, BadRank;
    AdvancingStays(s.rows, t.rows, r, bad, left);
    assert SameRow(t.rows[r], u.rows[r]);
    if !t.rows[r].replayed { MovesUp(t.rows, u.rows, r, bad); }
  }

  lemma {:induction false} RoundsAdvance(s: State, rounds: seq<Round>, r: nat, bad: set<string>, left: int)
    requires Reachable(s) && Advancing(s.rows, r, bad, left) && AllComplete(s, rounds, bad)
    ensures Reachable(PlayAll(s, rounds)) && Advancing(PlayAll(s, rounds).rows, r, bad, left - |rounds|)
  {
    if rounds == [] {
    } else {
      var n := |rounds| - 1;
      var front := rounds[..n];
      assert AllComplete(s, front, bad) by {
        forall m | 0 <= m < n ensures Completes(PlayAll(s, front[..m]), front[m], bad) {
          assert front[..m] == rounds[..m] && Completes(PlayAll(s, rounds[..m]), rounds[m], bad);
        }
      }
      assert Completes(PlayAll(s, front), rounds[n], bad);
      hide Advancing, Completes, Reachable, AllComplete;
      RoundsAdvance(s, front, r, bad, left);
      RoundAdvances(PlayAll(s, front), rounds[n], r, bad, left - n);
    }
  }

  /** In any reachable state: a row of an endpoint that answers, with less than a
      page of older rows of endpoints that stay down, is replayed once one call more
      than there are rows waiting before it has come to its end. Between the calls
      and beside them everything may happen: new events, failures, other calls,
      crashes between calls. */
  lemma EventuallyReplayed(s: State, rounds: seq<Round>, r: nat, bad: set<string>)
    requires Reachable(s) && AllComplete(s, rounds, bad)
    requires r < |s.rows| && !Bad(bad, s.rows[r]) && BadRank(s.rows, r, bad) < 500 && Rank(s.rows, r) < |rounds|
    ensures r < |PlayAll(s, rounds).rows| && PlayAll(s, rounds).rows[r].replayed
  {
    RoundsAdvance(s, rounds, r, bad, Rank(s.rows, r));
  }

  // --- the starved state is reachable ---

  /** One event to one endpoint that does not answer, from its notification to the
      dead letter and its counter. */
  function FileOne(s: State, url: string, kind: string, payload: string): State {
    var i := |s.sends|;
    var s1 := Do(s, Notify([url], kind, payload));
    var s2 := Do(Do(Do(s1, Attempt(i, Missed)), Attempt(i, Missed)), Attempt(i, Missed));
    Do(Do(s2, Insert(i, Stored)), Count(i))
  }

  lemma FiledOne(s: State, url: string, kind: string, payload: string)
    requires s.hasStore
    ensures var t := FileOne(s, url, kind, payload);
      && t.rows == s.rows + [Letter(|s.sends|, url, kind, payload, false)]
      && t.hasStore && t.calls == s.calls
  {
    var i := |s.sends|;
    var s1 := Do(s, Notify([url], kind, payload));
    assert s1.sends[i] == Send(url, kind, payload, s.life, Trying(0), 0, 0);
    var s2 := Do(s1, Attempt(i, Missed));
    assert s2.sends[i].phase == Trying(1);
    var s3 := Do(s2, Attempt(i, Missed));
    assert s3.sends[i].phase == Trying(2);
    var s4 := Do(s3, Attempt(i, Missed));
    assert s4.sends[i].phase == Exhausted;
  }

  lemma ReachableFileOne(s: State, url: string, kind: string, payload: string)
    requires Reachable(s)
    ensures Reachable(FileOne(s, url, kind, payload))
  {
    var i := |s.sends|;
    var s1 := Do(s, Notify([url], kind, payload));
    ReachableDo(s, Notify([url], kind, payload));
    hide Do, Reachable;
    var s2, s3 := Do(s1, Attempt(i, Missed)), Do(Do(s1, Attempt(i, Missed)), Attempt(i, Missed));
    ReachableDo(s1, Attempt(i, Missed));
    ReachableDo(s2, Attempt(i, Missed));
    ReachableDo(s3, Attempt(i, Missed));
    ReachableDo(Do(s3, Attempt(i, Missed)), Insert(i, Stored));
    ReachableDo(Do(Do(s3, Attempt(i, Missed)), Insert(i, Stored)), Count(i));
  }

  /** n events that ended up as dead letters. */
  lemma {:induction false} DeadLetters(n: nat, url: string, kind: string, payload: string) returns (s: State)
    ensures Reachable(s) && s.hasStore && s.calls == [] && |s.rows| == n
    ensures forall x :: 0 <= x < n ==> s.rows[x].endpoint == url && !s.rows[x].replayed
  {
    if n == 0 {
      s := Start(true);
      assert s == Run(Start(true), []);
    } else {
      var t := DeadLetters(n - 1, url, kind, payload);
      FiledOne(t, url, kind, payload);
      ReachableFileOne(t, url, kind, payload);
      s := FileOne(t, url, kind, payload);
    }
  }

  lemma {:induction false} AllBad(rows: seq<Letter>, n: nat, bad: set<string>)
    requires n <= |rows| && forall x :: 0 <= x < n ==> Bad(bad, rows[x]) && !rows[x].replayed
    ensures BadRank(rows, n, bad) == n
  {
    if n == 0 {
    } else {
      AllBad(rows, n - 1, bad);
    }
  }

  /** Five hundred events lost to an endpoint that is down, then one to another
      endpoint that was down for a moment: the last one is starved. */
  lemma StarvedIsReachable(down: string, up: string, kind: string, payload: string) returns (s: State)
    requires down != up && up != ""
    ensures Reachable(s) && |s.rows| == PAGE + 1 && s.rows[PAGE].endpoint == up && !Bad({down}, s.rows[PAGE])
    ensures Starved(s, PAGE, {down})
  {
    var t := DeadLetters(PAGE, down, kind, payload);
    FiledOne(t, up, kind, payload);
    ReachableFileOne(t, up, kind, payload);
    s := FileOne(t, up, kind, payload);
    hide FileOne;
    AllBad(s.rows, PAGE, {down});
  }
}
