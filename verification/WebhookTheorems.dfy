/** What the delivery protocol guarantees over whole runs, and where it starves. */
module WebhookTheorems {
  import opened Reports
  import opened Webhooks

  ghost predicate Reachable(s: State) {
    exists hasStore, acts: seq<Action> :: s == Run(Start(hasStore), acts)
  }

  lemma ReachableInv(s: State)
    requires Reachable(s)
    ensures Inv(s)
  {
    var hasStore, acts: seq<Action> :| s == Run(Start(hasStore), acts);
    RunKeepsInv(Start(hasStore), acts);
  }

  lemma RunSnoc(s: State, acts: seq<Action>, a: Action)
    ensures Run(s, acts + [a]) == Do(Run(s, acts), a)
  {
    assert (acts + [a])[..|acts|] == acts;
  }

  lemma RunNil(s: State)
    ensures Run(s, []) == s
  {
  }

  lemma ReachableDo(s: State, a: Action)
    requires Reachable(s)
    ensures Reachable(Do(s, a))
  {
    var hasStore, acts: seq<Action> :| s == Run(Start(hasStore), acts);
    RunSnoc(Start(hasStore), acts, a);
  }

  lemma {:induction false} ReachableRun(s: State, acts: seq<Action>)
    requires Reachable(s)
    ensures Reachable(Run(s, acts))
  {
    if acts == [] {
    } else {
      ReachableRun(s, acts[..|acts| - 1]);
      ReachableDo(Run(s, acts[..|acts| - 1]), acts[|acts| - 1]);
    }
  }

  // --- where an event is ---

  datatype Place = WithSender | DeliveredAtOnce | Waiting | Replayed | InsertFailed | NoStore | DiedWithProcess

  ghost predicate HasRow(s: State, i: nat, replayed: bool) {
    exists r :: 0 <= r < |s.rows| && s.rows[r].owner == i && s.rows[r].replayed == replayed
  }

  ghost predicate IsAt(s: State, i: nat, p: Place)
    requires i < |s.sends|
  {
    var phase := s.sends[i].phase;
    match p
    case WithSender => phase.Trying? || phase.Exhausted?
    case DeliveredAtOnce => phase.Delivered?
    case Waiting => HasRow(s, i, false)
    case Replayed => HasRow(s, i, true)
    case InsertFailed => phase.Refused?
    case NoStore => phase.Dropped?
    case DiedWithProcess => phase.Lost?
  }

  function PlaceOf(s: State, i: nat): Place
    requires i < |s.sends|
    requires RowOf(s.sends[i].phase).Some? ==> RowOf(s.sends[i].phase).value < |s.rows|
  {
    match s.sends[i].phase
    case Trying(_) => WithSender
    case Exhausted => WithSender
    case Delivered => DeliveredAtOnce
    case Parked(r) => if s.rows[r].replayed then Replayed else Waiting
    case Dead(r) => if s.rows[r].replayed then Replayed else Waiting
    case Unacked(r) => if s.rows[r].replayed then Replayed else Waiting
    case Refused => InsertFailed
    case Dropped => NoStore
    case Lost => DiedWithProcess
  }

  /** Every (event, endpoint) is in exactly one place. What is in the table is
      there once, and is what the sender was given. Delivered places had a
      delivery that was heard of, the others that never reach the table had none;
      each request that was heard of did arrive. */
  lemma OnePlace(s: State, i: nat)
    requires Reachable(s) && i < |s.sends|
    ensures RowOf(s.sends[i].phase).Some? ==> RowOf(s.sends[i].phase).value < |s.rows|
    ensures forall p :: IsAt(s, i, p) <==> p == PlaceOf(s, i)
    ensures forall r, r' :: 0 <= r < |s.rows| && 0 <= r' < |s.rows| && s.rows[r].owner == i == s.rows[r'].owner ==>
        r == r'
    ensures forall r :: 0 <= r < |s.rows| && s.rows[r].owner == i ==>
      s.rows[r].endpoint == s.sends[i].url && s.rows[r].kind == s.sends[i].kind
        && s.rows[r].payload == s.sends[i].payload
    ensures s.sends[i].deliveries <= s.sends[i].arrivals
    ensures PlaceOf(s, i) == DeliveredAtOnce ==> s.sends[i].deliveries == 1 && s.sends[i].arrivals <= ATTEMPTS
    ensures PlaceOf(s, i) == Replayed ==> 1 <= s.sends[i].deliveries
    ensures PlaceOf(s, i) !in {DeliveredAtOnce, Replayed, Waiting} ==> s.sends[i].deliveries == 0
  {
    ReachableInv(s);
    assert SendOk(s, i);
    forall r | 0 <= r < |s.rows| && s.rows[r].owner == i
      ensures RowOf(s.sends[i].phase) == Some(r)
      ensures s.rows[r].endpoint == s.sends[i].url && s.rows[r].kind == s.sends[i].kind
          && s.rows[r].payload == s.sends[i].payload
      ensures s.rows[r].replayed ==> 1 <= s.sends[i].deliveries
    {
      assert RowOk(s, r);
    }
    if RowOf(s.sends[i].phase).Some? {
      var r := RowOf(s.sends[i].phase).value;
      assert HasRow(s, i, s.rows[r].replayed);
    }
  }

  /** A delivery is at least once, not exactly once: an endpoint whose first answer
      is lost receives the event again, and the event counts as delivered. */
  lemma MayArriveTwice(hasStore: bool, url: string, kind: string, payload: string)
    ensures var s := Do(Do(Do(Start(hasStore), Notify([url], kind, payload)), Attempt(0, Unheard)), Attempt(0, Heard));
      && Reachable(s) && s.sends == [Send(url, kind, payload, 0, Delivered, 2, 1)]
  {
    var s0 := Start(hasStore);
    var s1 := Do(s0, Notify([url], kind, payload));
    var s2 := Do(s1, Attempt(0, Unheard));
    assert s1.sends == [Send(url, kind, payload, 0, Trying(0), 0, 0)];
    assert s2.sends == [Send(url, kind, payload, 0, Trying(1), 1, 0)];
    assert Do(s2, Attempt(0, Heard)).sends == [Send(url, kind, payload, 0, Delivered, 2, 1)];
    hide Do, Reachable;
    StartIsReachable(hasStore);
    ReachableDo(s0, Notify([url], kind, payload));
    ReachableDo(s1, Attempt(0, Unheard));
    ReachableDo(s2, Attempt(0, Heard));
  }

  lemma StartIsReachable(hasStore: bool)
    ensures Reachable(Start(hasStore))
  {
    assert Start(hasStore) == Run(Start(hasStore), []);
  }

  // --- counters ---

  lemma {:induction false} FailedSplits(life: nat, sends: seq<Send>, n: nat)
    requires n <= |sends|
    ensures Tally(Failed, life, sends, n)
        == Tally(Filing, life, sends, n) + Tally(Filed, life, sends, n) + Tally(NotFiled, life, sends, n)
          + Tally(Unfiled, life, sends, n)
  {
    if n == 0 {
    } else {
      FailedSplits(life, sends, n - 1);
    }
  }

  /** Since the process started: every counted failure is being filed, was filed
      and counted, could not be filed, or had nowhere to be filed. */
  lemma FailuresAccounted(s: State)
    requires Reachable(s)
    ensures s.failures == s.deadletters + Tally(NotFiled, s.life, s.sends, |s.sends|)
      + Tally(Filing, s.life, s.sends, |s.sends|) + Tally(Unfiled, s.life, s.sends, |s.sends|)
  {
    ReachableInv(s);
    FailedSplits(s.life, s.sends, |s.sends|);
  }

  lemma {:induction false} TallyEmpty(k: Class, s: State, n: nat)
    requires n <= |s.sends| && forall i :: 0 <= i < n ==> !In(k, s.life, s.sends[i])
    ensures Tally(k, s.life, s.sends, n) == 0
  {
    if n == 0 {
    } else {
      TallyEmpty(k, s, n - 1);
    }
  }

  /** At rest, with a dead letter store: failures are dead letters plus failed
      inserts. Without one: no dead letters at all. */
  lemma FailuresAtRest(s: State)
    requires Reachable(s) && forall i :: 0 <= i < |s.sends| ==> !Working(s.sends[i].phase)
    ensures s.hasStore ==> s.failures == s.deadletters + Tally(NotFiled, s.life, s.sends, |s.sends|)
    ensures !s.hasStore ==> s.deadletters == 0 && s.failures == Tally(Unfiled, s.life, s.sends, |s.sends|)
  {
    FailuresAccounted(s);
    ReachableInv(s);
    forall i | 0 <= i < |s.sends|
      ensures !In(Filing, s.life, s.sends[i])
      ensures s.hasStore ==> !In(Unfiled, s.life, s.sends[i])
      ensures !s.hasStore ==> !In(Filed, s.life, s.sends[i]) && !In(NotFiled, s.life, s.sends[i])
    {
      assert SendOk(s, i);
    }
    TallyEmpty(Filing, s, |s.sends|);
    if s.hasStore {
      TallyEmpty(Unfiled, s, |s.sends|);
    } else {
      TallyEmpty(Filed, s, |s.sends|);
      TallyEmpty(NotFiled, s, |s.sends|);
    }
  }

  // --- attempts ---

  /** How many times send i is attempted by its sender over a run. */
  function Attempts(s: State, acts: seq<Action>, i: nat): nat {
    if acts == [] then 0
    else
      var n := |acts| - 1;
      var counts := acts[n].Attempt? && acts[n].i == i && CanAttempt(Run(s, acts[..n]), i);
      Attempts(s, acts[..n], i) + if counts then 1 else 0
  }

  /** What n attempts so far say about the phase: an undelivered send that has ended,
      or is being filed, has had three. */
  predicate Made(p: Phase, n: nat) {
    match p
    case Trying(failed) => n == failed < 3
    case Delivered => 1 <= n <= 3
    case Lost => n <= 3
    case _ => n == 3
  }

  lemma StepMade(s: State, a: Action, i: nat, n: nat)
    requires if i < |s.sends| then Made(s.sends[i].phase, n) else n == 0
    ensures var t, n' := Do(s, a), n + if a.Attempt? && a.i == i && CanAttempt(s, i) then 1 else 0;
      if i < |t.sends| then Made(t.sends[i].phase, n') else n' == 0
  {
    if a.Visit? && CanVisit(s, a.c) {
      hide Made;
    }
  }

  /** Over any run: a sender makes three attempts, no more, and no fewer unless one of
      them is answered or the process dies. */
  lemma {:induction false} ThreeAttempts(hasStore: bool, acts: seq<Action>, i: nat)
    ensures var s, n := Run(Start(hasStore), acts), Attempts(Start(hasStore), acts, i);
      && n <= 3
      && if i < |s.sends| then Made(s.sends[i].phase, n) else n == 0
  {
    if acts == [] {
    } else {
      var n := |acts| - 1;
      ThreeAttempts(hasStore, acts[..n], i);
      StepMade(Run(Start(hasStore), acts[..n]), acts[n], i, Attempts(Start(hasStore), acts[..n], i));
    }
  }

  // --- who is notified ---

  predicate SameContent(a: Send, b: Send) {
    a.url == b.url && a.kind == b.kind && a.payload == b.payload && a.life == b.life
  }

  lemma {:induction false} RunKeepsContent(s: State, acts: seq<Action>)
    ensures |s.sends| <= |Run(s, acts).sends|
    ensures forall i :: 0 <= i < |s.sends| ==> SameContent(s.sends[i], Run(s, acts).sends[i])
  {
    if acts == [] {
    } else {
      var n := |acts| - 1;
      RunKeepsContent(s, acts[..n]);
      StepKeepsContent(Run(s, acts[..n]), acts[n]);
    }
  }

  lemma StepKeepsContent(s: State, a: Action)
    ensures |s.sends| <= |Do(s, a).sends|
    ensures forall i :: 0 <= i < |s.sends| ==> SameContent(s.sends[i], Do(s, a).sends[i])
  {
    match a
    case Visit(c, reply) =>
      if CanVisit(s, c) {
        VisitKeepsContent(s, c, reply);
        hide DoVisit;
      }
    case _ =>
  }

  lemma VisitKeepsContent(s: State, c: nat, reply: Reply)
    requires CanVisit(s, c)
    ensures |s.sends| == |DoVisit(s, c, reply).sends|
    ensures forall i :: 0 <= i < |s.sends| ==> SameContent(s.sends[i], DoVisit(s, c, reply).sends[i])
  {
  }

  /** A notification adds one untried delivery per configured endpoint, in order, with
      its kind and payload, and touches nothing else. */
  lemma NotifyReachesAll(s: State, urls: seq<string>, kind: string, payload: string)
    ensures var t := Do(s, Notify(urls, kind, payload));
      && t.(sends := s.sends) == s
      && |t.sends| == |s.sends| + |urls| && t.sends[..|s.sends|] == s.sends
      && forall i :: 0 <= i < |urls| ==>
           t.sends[|s.sends| + i] == Send(urls[i], kind, payload, s.life, Trying(0), 0, 0)
  {
    var t := Do(s, Notify(urls, kind, payload));
    assert t.sends == s.sends + Fresh(s, urls, kind, payload);
  }

  /** From then on, whatever happens, the event has its own place for each of the
      endpoints, and if it is filed there, then under that endpoint with that content. */
  lemma EveryEndpointHasAPlace(s: State, urls: seq<string>, kind: string, payload: string, acts: seq<Action>, i: nat)
    requires Reachable(s) && i < |urls|
    ensures var u, k := Run(Do(s, Notify(urls, kind, payload)), acts), |s.sends| + i;
      && k < |u.sends|
      && u.sends[k].url == urls[i] && u.sends[k].kind == kind && u.sends[k].payload == payload
      && (exists p :: IsAt(u, k, p)) && (forall p, q :: IsAt(u, k, p) && IsAt(u, k, q) ==> p == q)
      && forall r :: 0 <= r < |u.rows| && u.rows[r].owner == k ==>
           u.rows[r].endpoint == urls[i] && u.rows[r].kind == kind && u.rows[r].payload == payload
  {
    var a := Notify(urls, kind, payload);
    var t := Do(s, a);
    NotifyReachesAll(s, urls, kind, payload);
    ReachableDo(s, a);
    ReachableRun(t, acts);
    RunKeepsContent(t, acts);
    var u, k := Run(t, acts), |s.sends| + i;
    assert SameContent(t.sends[k], u.sends[k]);
    hide Do, Run, Reachable, IsAt;
    OnePlace(u, k);
    assert IsAt(u, k, PlaceOf(u, k));
  }

  // --- rows are kept ---

  predicate SameRow(a: Letter, b: Letter) {
    b.(replayed := a.replayed) == a && (a.replayed ==> b.replayed)
  }

  predicate SameSend(a: Send, b: Send) {
    a.arrivals <= b.arrivals && a.deliveries <= b.deliveries && (!Working(a.phase) ==> a.phase == b.phase)
  }

  ghost predicate Keeps(s: State, t: State) {
    && |s.rows| <= |t.rows| && (forall r :: 0 <= r < |s.rows| ==> SameRow(s.rows[r], t.rows[r]))
    && |s.sends| <= |t.sends| && (forall i :: 0 <= i < |s.sends| ==> SameSend(s.sends[i], t.sends[i]))
  }

  /** No row is ever removed or altered except to be marked replayed, and a send
      that has ended stays ended that way. */
  lemma {:induction false} RunKeepsRows(s: State, acts: seq<Action>)
    ensures Keeps(s, Run(s, acts))
  {
    if acts == [] {
    } else {
      var n := |acts| - 1;
      RunKeepsRows(s, acts[..n]);
      StepKeepsRows(Run(s, acts[..n]), acts[n]);
    }
  }

  lemma SendKeeps(s: State, t: State, i: nat)
    requires i < |s.sends| && |t.sends| == |s.sends| && s.rows <= t.rows && SameSend(s.sends[i], t.sends[i])
    requires forall k :: 0 <= k < |s.sends| && k != i ==> t.sends[k] == s.sends[k]
    ensures Keeps(s, t)
  {
    forall r | 0 <= r < |s.rows| ensures SameRow(s.rows[r], t.rows[r]) { assert t.rows[r] == s.rows[r]; }
  }

  lemma VisitKeeps(s: State, c: nat, reply: Reply)
    requires CanVisit(s, c)
    ensures Keeps(s, DoVisit(s, c, reply))
  {
    SendKeeps(s, DoVisit(s, c, reply), s.rows[Current(s, c)].owner);
  }

  lemma MarkKeeps(s: State, c: nat, ok: bool)
    requires CanMark(s, c)
    ensures Keeps(s, DoMark(s, c, ok))
  {
  }

  lemma StepKeepsRows(s: State, a: Action)
    ensures Keeps(s, Do(s, a))
  {
    match a
    case Attempt(i, reply) => if CanAttempt(s, i) { SendKeeps(s, DoAttempt(s, i, reply), i); }
    case Insert(i, result) =>
      if i < |s.sends| && s.sends[i].phase.Exhausted? { SendKeeps(s, DoInsert(s, i, result), i); }
    case Count(i) => if i < |s.sends| && s.sends[i].phase.Parked? { SendKeeps(s, DoCount(s, i), i); }
    case Visit(c, reply) =>
      if CanVisit(s, c) {
        VisitKeeps(s, c, reply);
        hide DoVisit, Keeps;
      }
    case Mark(c, ok) =>
      if CanMark(s, c) {
        MarkKeeps(s, c, ok);
        hide DoMark, Keeps;
      }
    case Notify(_, _, _) =>
    case List =>
    case Crash =>
  }

  // --- which rows a replay call picks ---

  /** Unreplayed rows among the first n. */
  function Rank(rows: seq<Letter>, n: nat): nat
    requires n <= |rows|
  {
    if n == 0 then 0 else Rank(rows, n - 1) + if rows[n - 1].replayed then 0 else 1
  }

  /** Row r is listed exactly when it is unreplayed and fewer than `limit`
      unreplayed rows are older. */
  lemma {:induction false} OldestIff(rows: seq<Letter>, n: nat, limit: nat, r: nat)
    requires n <= |rows| && r < |rows|
    ensures |Oldest(rows, n, limit)| == if Rank(rows, n) < limit then Rank(rows, n) else limit
    ensures r in Oldest(rows, n, limit) <==> r < n && !rows[r].replayed && Rank(rows, r) < limit
  {
    if n == 0 {
    } else {
      OldestIff(rows, n - 1, limit, r);
      if r >= n - 1 { OldestInRange(rows, n - 1, limit); }
    }
  }

  predicate Ascending(ids: seq<nat>) { forall j, k :: 0 <= j < k < |ids| ==> ids[j] < ids[k] }

  predicate AllUnreplayed(rows: seq<Letter>, ids: seq<nat>, n: nat)
    requires n <= |rows|
  {
    forall j :: 0 <= j < |ids| ==> ids[j] < n && !rows[ids[j]].replayed
  }

  lemma {:induction false} OldestAscends(rows: seq<Letter>, n: nat, limit: nat)
    requires n <= |rows|
    ensures AllUnreplayed(rows, Oldest(rows, n, limit), n) && Ascending(Oldest(rows, n, limit))
  {
    if n == 0 {
    } else {
      OldestAscends(rows, n - 1, limit);
      var ids := Oldest(rows, n - 1, limit);
      if |ids| < limit && !rows[n - 1].replayed {
        assert AllUnreplayed(rows, ids + [n - 1], n) && Ascending(ids + [n - 1]);
      } else {
        assert AllUnreplayed(rows, ids, n);
      }
    }
  }

  /** Row r is on the page a replay call lists. */
  predicate Picked(rows: seq<Letter>, r: nat)
    requires r < |rows|
  {
    !rows[r].replayed && Rank(rows, r) < PAGE
  }

  // --- head-of-line blocking ---

  predicate Bad(bad: set<string>, l: Letter) { l.endpoint == "" || l.endpoint in bad }

  /** Unreplayed rows of bad endpoints among the first n. */
  function BadRank(rows: seq<Letter>, n: nat, bad: set<string>): nat
    requires n <= |rows|
  {
    if n == 0 then 0 else BadRank(rows, n - 1, bad) + if !rows[n - 1].replayed && Bad(bad, rows[n - 1]) then 1 else 0
  }

  /** Every delivery to a bad endpoint fails from here on. */
  predicate Allowed(s: State, a: Action, bad: set<string>) {
    a.Visit? && CanVisit(s, a.c) && Bad(bad, s.rows[Current(s, a.c)]) ==> !a.reply.Heard?
  }

  ghost predicate Failing(s: State, acts: seq<Action>, bad: set<string>) {
    forall n :: 0 <= n < |acts| ==> Allowed(Run(s, acts[..n]), acts[n], bad)
  }

  /** Row r waits behind a full page of rows that cannot be delivered, and no
      call at work has it, or a delivered bad row, in hand. */
  ghost predicate Starved(s: State, r: nat, bad: set<string>) {
    && r < |s.rows| && !s.rows[r].replayed && PAGE <= BadRank(s.rows, r, bad)
    && forall c :: 0 <= c < |s.calls| ==> NotInHand(s, s.calls[c], r, bad)
  }

  ghost predicate NotInHand(s: State, k: Call, r: nat, bad: set<string>) {
    && (forall j :: 0 <= j < |k.ids| ==> k.ids[j] < |s.rows| && (k.next <= j ==> k.ids[j] != r))
    && (k.marking ==> k.next < |k.ids| && !Bad(bad, s.rows[k.ids[k.next]]))
  }

  lemma {:induction false} BadRankBelow(rows: seq<Letter>, n: nat, bad: set<string>)
    requires n <= |rows|
    ensures BadRank(rows, n, bad) <= Rank(rows, n)
  {
    if n == 0 {
    } else {
      BadRankBelow(rows, n - 1, bad);
    }
  }

  lemma {:induction false} BadRankKept(a: seq<Letter>, b: seq<Letter>, n: nat, bad: set<string>)
    requires n <= |a| && n <= |b|
    requires forall k :: 0 <= k < n ==>
        a[k].endpoint == b[k].endpoint && (Bad(bad, a[k]) ==> a[k].replayed == b[k].replayed)
    ensures BadRank(a, n, bad) == BadRank(b, n, bad)
  {
    if n == 0 {
    } else {
      BadRankKept(a, b, n - 1, bad);
    }
  }

  lemma StarvedList(s: State, r: nat, bad: set<string>)
    requires Starved(s, r, bad)
    ensures Starved(Do(s, List), r, bad)
  {
    var ids := Oldest(s.rows, |s.rows|, PAGE);
    BadRankBelow(s.rows, r, bad);
    OldestIff(s.rows, |s.rows|, PAGE, r);
    OldestInRange(s.rows, |s.rows|, PAGE);
    assert r !in ids;
  }

  lemma StarvedVisit(s: State, c: nat, reply: Reply, r: nat, bad: set<string>)
    requires Starved(s, r, bad) && CanVisit(s, c) && (Bad(bad, s.rows[Current(s, c)]) ==> !reply.Heard?)
    ensures Starved(DoVisit(s, c, reply), r, bad)
  {
    var t := DoVisit(s, c, reply);
    assert NotInHand(s, s.calls[c], r, bad);
    forall d | 0 <= d < |t.calls| ensures NotInHand(t, t.calls[d], r, bad) { assert NotInHand(s, s.calls[d], r, bad); }
  }

  lemma StarvedMark(s: State, c: nat, ok: bool, r: nat, bad: set<string>)
    requires Starved(s, r, bad) && CanMark(s, c)
    ensures Starved(DoMark(s, c, ok), r, bad)
  {
    var t := DoMark(s, c, ok);
    assert NotInHand(s, s.calls[c], r, bad);
    BadRankKept(s.rows, t.rows, r, bad);
    forall d | 0 <= d < |t.calls| ensures NotInHand(t, t.calls[d], r, bad) { assert NotInHand(s, s.calls[d], r, bad); }
  }

  lemma StarvedInsert(s: State, t: State, r: nat, bad: set<string>)
    requires Starved(s, r, bad) && s.rows <= t.rows && t.calls == s.calls
    ensures Starved(t, r, bad)
  {
    BadRankKept(s.rows, t.rows, r, bad);
    forall d | 0 <= d < |t.calls| ensures NotInHand(t, t.calls[d], r, bad) { assert NotInHand(s, s.calls[d], r, bad); }
  }

  lemma StepStarves(s: State, a: Action, r: nat, bad: set<string>)
    requires Starved(s, r, bad) && Allowed(s, a, bad)
    ensures Starved(Do(s, a), r, bad)
  {
    match a
    case List => StarvedList(s, r, bad);
    case Visit(c, reply) => if CanVisit(s, c) { StarvedVisit(s, c, reply, r, bad); }
    case Mark(c, ok) => if CanMark(s, c) { StarvedMark(s, c, ok, r, bad); }
    case Crash =>
    case _ => StarvedInsert(s, Do(s, a), r, bad);
  }

  /** Once 500 older rows of endpoints that do not recover fill the page, row r
      is never replayed, in any run, however many replay calls are made and
      however healthy its own endpoint is. */
  lemma {:induction false} StarvedForever(s: State, acts: seq<Action>, r: nat, bad: set<string>)
    requires Starved(s, r, bad) && Failing(s, acts, bad)
    ensures Starved(Run(s, acts), r, bad)
  {
    if acts == [] {
    } else {
      var n := |acts| - 1;
      assert Failing(s, acts[..n], bad) by {
        assert forall m :: 0 <= m < n ==> acts[..n][..m] == acts[..m] && acts[..n][m] == acts[m];
        assert forall m :: 0 <= m < n ==> Allowed(Run(s, acts[..m]), acts[m], bad);
      }
      StarvedForever(s, acts[..n], r, bad);
      StepStarves(Run(s, acts[..n]), acts[n], r, bad);
    }
  }
}
