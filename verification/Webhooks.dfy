/** Webhook delivery, the dead letter table and its replay
    (parser/internal/webhook/webhook.go, parser/internal/api/api_platform.go,
    parser/internal/audit/audit.go), as a machine in which any number of senders
    and replay calls interleave, every delivery and every statement may fail and
    the process may die between any two steps. */
module Webhooks {
  import opened Reports

  const ATTEMPTS := 3
  const PAGE := 500

  /** What a sender still has to do, or how it ended. */
  datatype Phase =
    | Trying(failed: nat)    // attempts so far, all failed
    | Exhausted              // counted as failed, row not yet inserted
    | Parked(row: nat)       // row inserted, not yet counted
    | Delivered
    | Dead(row: nat)
    | Refused                // insert failed
    | Unacked(row: nat)      // insert reported failed but took effect
    | Dropped                // no dead letter store configured
    | Lost                   // the process died first

  /** One (event, endpoint). The payload stands for the encoded body. arrivals counts
      the requests the endpoint received, deliveries those it was heard to accept. */
  datatype Send = Send(
    url: string, kind: string, payload: string, life: nat, phase: Phase, arrivals: nat, deliveries: nat)

  /** How one request ends: accepted and heard, not received or turned down, or
      received although the answer is lost. */
  datatype Reply = Heard | Missed | Unheard

  /** A row of webhook_deadletter, its id its index. */
  datatype Letter = Letter(owner: nat, endpoint: string, kind: string, payload: string, replayed: bool)

  /** A replay request working through the rows it listed. */
  datatype Call = Call(ids: seq<nat>, next: nat, marking: bool, replayed: nat, failed: nat)

  datatype State = State(
    hasStore: bool, life: nat, sends: seq<Send>, rows: seq<Letter>,
    failures: int, deadletters: int, calls: seq<Call>)

  datatype Insertion = Stored | Rejected | StoredUnacked

  datatype Action =
    | Notify(urls: seq<string>, kind: string, payload: string)
    | Attempt(i: nat, reply: Reply)
    | Insert(i: nat, result: Insertion)
    | Count(i: nat)
    | List
    | Visit(c: nat, reply: Reply)
    | Mark(c: nat, ok: bool)
    | Crash

  // --- steps; one that is not enabled does nothing ---

  function Fresh(s: State, urls: seq<string>, kind: string, payload: string): seq<Send> {
    seq(|urls|, i requires 0 <= i < |urls| => Send(urls[i], kind, payload, s.life, Trying(0), 0, 0))
  }

  function SetPhase(s: State, i: nat, p: Phase): State
    requires i < |s.sends|
  {
    s.(sends := s.sends[i := s.sends[i].(phase := p)])
  }

  predicate CanAttempt(s: State, i: nat) { i < |s.sends| && s.sends[i].phase.Trying? }

  /** The request as the endpoint and its caller know of it. */
  function Requested(x: Send, reply: Reply): Send {
    match reply
    case Heard => x.(arrivals := x.arrivals + 1, deliveries := x.deliveries + 1)
    case Missed => x
    case Unheard => x.(arrivals := x.arrivals + 1)
  }

  function DoAttempt(s: State, i: nat, reply: Reply): State
    requires CanAttempt(s, i)
  {
    var n := s.sends[i].phase.failed + 1;
    var t := s.(sends := s.sends[i := Requested(s.sends[i], reply)]);
    if reply.Heard? then SetPhase(t, i, Delivered)
    else if n < ATTEMPTS then SetPhase(t, i, Trying(n))
    else SetPhase(t, i, if s.hasStore then Exhausted else Dropped).(failures := s.failures + 1)
  }

  function DoInsert(s: State, i: nat, result: Insertion): State
    requires i < |s.sends| && s.sends[i].phase.Exhausted?
  {
    var x := s.sends[i];
    var rows := s.rows + [Letter(i, x.url, x.kind, x.payload, false)];
    match result
    case Stored => SetPhase(s, i, Parked(|s.rows|)).(rows := rows)
    case Rejected => SetPhase(s, i, Refused)
    case StoredUnacked => SetPhase(s, i, Phase.Unacked(|s.rows|)).(rows := rows)
  }

  function DoCount(s: State, i: nat): State
    requires i < |s.sends| && s.sends[i].phase.Parked?
  {
    SetPhase(s, i, Dead(s.sends[i].phase.row)).(deadletters := s.deadletters + 1)
  }

  /** The ids of the first `limit` unreplayed rows among the first n. */
  function Oldest(rows: seq<Letter>, n: nat, limit: nat): seq<nat>
    requires n <= |rows|
  {
    if n == 0 then []
    else
      var ids := Oldest(rows, n - 1, limit);
      if |ids| < limit && !rows[n - 1].replayed then ids + [n - 1] else ids
  }

  function Advance(c: Call, delivered: bool): Call {
    if delivered then c.(next := c.next + 1, marking := false, replayed := c.replayed + 1)
    else c.(next := c.next + 1, marking := false, failed := c.failed + 1)
  }

  predicate CanVisit(s: State, c: nat) {
    && c < |s.calls| && !s.calls[c].marking && s.calls[c].next < |s.calls[c].ids|
    && Current(s, c) < |s.rows| && s.rows[Current(s, c)].owner < |s.sends|
  }

  function Current(s: State, c: nat): nat
    requires c < |s.calls| && s.calls[c].next < |s.calls[c].ids|
  {
    s.calls[c].ids[s.calls[c].next]
  }

  /** A row without an endpoint is skipped as failed. */
  function DoVisit(s: State, c: nat, reply: Reply): State
    requires CanVisit(s, c)
  {
    var r := Current(s, c);
    if s.rows[r].endpoint == "" then s.(calls := s.calls[c := Advance(s.calls[c], false)])
    else
      var o := s.rows[r].owner;
      s.(calls := s.calls[c := if reply.Heard? then s.calls[c].(marking := true) else Advance(s.calls[c], false)],
         sends := s.sends[o := Requested(s.sends[o], reply)])
  }

  predicate CanMark(s: State, c: nat) {
    && c < |s.calls| && s.calls[c].marking && s.calls[c].next < |s.calls[c].ids|
    && Current(s, c) < |s.rows|
  }

  /** A mark that fails is logged; the row counts as replayed in the answer. */
  function DoMark(s: State, c: nat, ok: bool): State
    requires CanMark(s, c)
  {
    var r := Current(s, c);
    s.(calls := s.calls[c := Advance(s.calls[c], true)],
       rows := if ok then s.rows[r := s.rows[r].(replayed := true)] else s.rows)
  }

  function Died(x: Send): Send {
    match x.phase
    case Trying(_) => x.(phase := Lost)
    case Exhausted => x.(phase := Lost)
    case Parked(r) => x.(phase := Dead(r))
    case _ => x
  }

  /** Senders, replay calls and counters die with the process; rows stay. */
  function DoCrash(s: State): State {
    State(s.hasStore, s.life + 1, seq(|s.sends|, i requires 0 <= i < |s.sends| => Died(s.sends[i])), s.rows, 0, 0, [])
  }

  function Do(s: State, a: Action): State {
    match a
    case Notify(urls, kind, payload) => s.(sends := s.sends + Fresh(s, urls, kind, payload))
    case Attempt(i, reply) => if CanAttempt(s, i) then DoAttempt(s, i, reply) else s
    case Insert(i, result) => if i < |s.sends| && s.sends[i].phase.Exhausted? then DoInsert(s, i, result) else s
    case Count(i) => if i < |s.sends| && s.sends[i].phase.Parked? then DoCount(s, i) else s
    case List => s.(calls := s.calls + [Call(Oldest(s.rows, |s.rows|, PAGE), 0, false, 0, 0)])
    case Visit(c, reply) => if CanVisit(s, c) then DoVisit(s, c, reply) else s
    case Mark(c, ok) => if CanMark(s, c) then DoMark(s, c, ok) else s
    case Crash => DoCrash(s)
  }

  function Run(s: State, acts: seq<Action>): State {
    if acts == [] then s else Do(Run(s, acts[..|acts| - 1]), acts[|acts| - 1])
  }

  function Start(hasStore: bool): State { State(hasStore, 0, [], [], 0, 0, []) }

  // --- what every step keeps ---

  function RowOf(p: Phase): Option<nat> {
    match p
    case Parked(r) => Some(r)
    case Dead(r) => Some(r)
    case Unacked(r) => Some(r)
    case _ => None
  }

  predicate Working(p: Phase) { p.Trying? || p.Exhausted? || p.Parked? }

  ghost predicate SendOk(s: State, i: nat)
    requires i < |s.sends|
  {
    var x := s.sends[i];
    && x.life <= s.life
    && (Working(x.phase) ==> x.life == s.life)
    && (x.phase.Trying? ==> x.phase.failed < ATTEMPTS)
    && (x.phase.Trying? ==> x.arrivals <= x.phase.failed)
    && x.deliveries <= x.arrivals && (RowOf(x.phase).None? ==> x.arrivals <= ATTEMPTS)
    && (x.phase.Delivered? ==> x.deliveries == 1)
    && (!x.phase.Delivered? && RowOf(x.phase).None? ==> x.deliveries == 0)
    && (x.phase.Exhausted? || x.phase.Refused? || RowOf(x.phase).Some? ==> s.hasStore)
    && (x.phase.Dropped? ==> !s.hasStore)
    && (RowOf(x.phase).Some? ==> RowOf(x.phase).value < |s.rows| && s.rows[RowOf(x.phase).value].owner == i)
  }

  ghost predicate RowOk(s: State, r: nat)
    requires r < |s.rows|
  {
    var l := s.rows[r];
    && l.owner < |s.sends|
    && var x := s.sends[l.owner];
    && RowOf(x.phase) == Some(r)
    && l.endpoint == x.url && l.kind == x.kind && l.payload == x.payload
    && (l.replayed ==> 1 <= x.deliveries)
  }

  ghost predicate CallOk(s: State, c: nat)
    requires c < |s.calls|
  {
    var k := s.calls[c];
    && k.next <= |k.ids| <= PAGE
    && (forall j :: 0 <= j < |k.ids| ==> k.ids[j] < |s.rows|)
    && k.replayed + k.failed == k.next
    && (k.marking ==>
        k.next < |k.ids| && s.rows[k.ids[k.next]].owner < |s.sends|
          && 1 <= s.sends[s.rows[k.ids[k.next]].owner].deliveries)
  }

  datatype Class = Failed | Filing | Filed | NotFiled | Unfiled

  predicate In(k: Class, life: nat, x: Send) {
    && x.life == life
    && match k
       case Failed => x.phase.Exhausted? || x.phase.Parked? || x.phase.Dead? || x.phase.Refused? || x.phase.Unacked?
         || x.phase.Dropped?
       case Filing => x.phase.Exhausted? || x.phase.Parked?
       case Filed => x.phase.Dead?
       case NotFiled => x.phase.Refused? || x.phase.Unacked?
       case Unfiled => x.phase.Dropped?
  }

  /** How many of the first n sends are in class k. */
  function Tally(k: Class, life: nat, sends: seq<Send>, n: nat): int
    requires n <= |sends|
  {
    if n == 0 then 0 else Tally(k, life, sends, n - 1) + if In(k, life, sends[n - 1]) then 1 else 0
  }

  ghost predicate CountersOk(s: State) {
    && s.failures == Tally(Failed, s.life, s.sends, |s.sends|)
    && s.deadletters == Tally(Filed, s.life, s.sends, |s.sends|)
  }

  ghost predicate Inv(s: State) {
    && (forall i :: 0 <= i < |s.sends| ==> SendOk(s, i))
    && (forall r :: 0 <= r < |s.rows| ==> RowOk(s, r))
    && (forall c :: 0 <= c < |s.calls| ==> CallOk(s, c))
    && CountersOk(s)
  }

  lemma {:induction false} TallySet(k: Class, life: nat, sends: seq<Send>, n: nat, i: nat, x: Send)
    requires n <= |sends| && i < |sends|
    ensures Tally(k, life, sends[i := x], n) == Tally(k, life, sends, n)
      + if i < n then (if In(k, life, x) then 1 else 0) - (if In(k, life, sends[i]) then 1 else 0) else 0
  {
    if n == 0 {
    } else {
      TallySet(k, life, sends, n - 1, i, x);
    }
  }

  lemma {:induction false} TallyAppend(k: Class, life: nat, sends: seq<Send>, more: seq<Send>, n: nat)
    requires n <= |more| && forall j :: 0 <= j < |more| ==> !In(k, life, more[j])
    ensures Tally(k, life, sends + more, |sends| + n) == Tally(k, life, sends, |sends|)
  {
    if n != 0 {
      TallyAppend(k, life, sends, more, n - 1);
    } else {
      TallyPrefix(k, life, sends, sends + more, |sends|);
    }
  }

  lemma {:induction false} TallyPrefix(k: Class, life: nat, a: seq<Send>, b: seq<Send>, n: nat)
    requires n <= |a| && n <= |b| && forall j :: 0 <= j < n ==> a[j] == b[j]
    ensures Tally(k, life, a, n) == Tally(k, life, b, n)
  {
    if n == 0 {
    } else {
      TallyPrefix(k, life, a, b, n - 1);
    }
  }

  lemma {:induction false} TallyNone(k: Class, life: nat, sends: seq<Send>, n: nat)
    requires n <= |sends| && forall j :: 0 <= j < |sends| ==> sends[j].life != life
    ensures Tally(k, life, sends, n) == 0
  {
    if n == 0 {
    } else {
      TallyNone(k, life, sends, n - 1);
    }
  }

  lemma {:induction false} OldestInRange(rows: seq<Letter>, n: nat, limit: nat)
    requires n <= |rows|
    ensures |Oldest(rows, n, limit)| <= limit
    ensures forall j :: 0 <= j < |Oldest(rows, n, limit)| ==> Oldest(rows, n, limit)[j] < n
  {
    if n == 0 {
    } else {
      OldestInRange(rows, n - 1, limit);
    }
  }

  lemma KeepsNotify(s: State, urls: seq<string>, kind: string, payload: string)
    requires Inv(s)
    ensures Inv(Do(s, Notify(urls, kind, payload)))
  {
    var more := Fresh(s, urls, kind, payload);
    TallyAppend(Failed, s.life, s.sends, more, |more|);
    TallyAppend(Filed, s.life, s.sends, more, |more|);
    var t := Do(s, Notify(urls, kind, payload));
    assert t.sends == s.sends + more;
    forall i | 0 <= i < |t.sends| ensures SendOk(t, i) {
      if i < |s.sends| { assert SendOk(s, i); }
    }
    forall r | 0 <= r < |t.rows| ensures RowOk(t, r) { assert RowOk(s, r); }
    forall c | 0 <= c < |t.calls| ensures CallOk(t, c) { assert CallOk(s, c); }
  }

  lemma KeepsSet(s: State, t: State, i: nat)
    requires Inv(s) && i < |s.sends|
    requires t.(sends := s.sends, failures := s.failures, deadletters := s.deadletters) == s
    requires |t.sends| == |s.sends| && t.sends == s.sends[i := t.sends[i]]
    requires t.sends[i] == s.sends[i].(
      phase := t.sends[i].phase, arrivals := t.sends[i].arrivals, deliveries := t.sends[i].deliveries)
    requires s.sends[i].deliveries <= t.sends[i].deliveries
    requires RowOf(t.sends[i].phase) == RowOf(s.sends[i].phase) && SendOk(t, i)
    requires t.failures - s.failures
        == (if In(Failed, s.life, t.sends[i]) then 1 else 0) - (if In(Failed, s.life, s.sends[i]) then 1 else 0)
    requires t.deadletters - s.deadletters
        == (if In(Filed, s.life, t.sends[i]) then 1 else 0) - (if In(Filed, s.life, s.sends[i]) then 1 else 0)
    ensures Inv(t)
  {
    TallySet(Failed, s.life, s.sends, |s.sends|, i, t.sends[i]);
    TallySet(Filed, s.life, s.sends, |s.sends|, i, t.sends[i]);
    forall j | 0 <= j < |t.sends| ensures SendOk(t, j) { assert SendOk(s, j); }
    forall r | 0 <= r < |t.rows| ensures RowOk(t, r) { assert RowOk(s, r); }
    forall c | 0 <= c < |t.calls| ensures CallOk(t, c) { assert CallOk(s, c); }
  }

  lemma KeepsFile(s: State, t: State, i: nat, p: Phase)
    requires Inv(s) && i < |s.sends| && s.sends[i].phase.Exhausted?
        && (p == Parked(|s.rows|) || p == Phase.Unacked(|s.rows|))
    requires var x := s.sends[i];
      t == s.(sends := s.sends[i := x.(phase := p)], rows := s.rows + [Letter(i, x.url, x.kind, x.payload, false)])
    ensures Inv(t)
  {
    assert SendOk(s, i);
    TallySet(Failed, s.life, s.sends, |s.sends|, i, t.sends[i]);
    TallySet(Filed, s.life, s.sends, |s.sends|, i, t.sends[i]);
    forall j | 0 <= j < |t.sends| ensures SendOk(t, j) { assert SendOk(s, j); }
    forall r | 0 <= r < |t.rows| ensures RowOk(t, r) {
      if r < |s.rows| { assert RowOk(s, r); }
    }
    forall c | 0 <= c < |t.calls| ensures CallOk(t, c) { assert CallOk(s, c); }
  }

  lemma KeepsInsert(s: State, i: nat, result: Insertion)
    requires Inv(s) && i < |s.sends| && s.sends[i].phase.Exhausted?
    ensures Inv(DoInsert(s, i, result))
  {
    var t := DoInsert(s, i, result);
    match result
    case Stored => KeepsFile(s, t, i, Parked(|s.rows|));
    case StoredUnacked => KeepsFile(s, t, i, Phase.Unacked(|s.rows|));
    case Rejected =>
      assert SendOk(s, i);
      KeepsSet(s, t, i);
  }

  lemma KeepsVisit(s: State, c: nat, reply: Reply)
    requires Inv(s) && CanVisit(s, c)
    ensures Inv(DoVisit(s, c, reply))
  {
    var t := DoVisit(s, c, reply);
    var r := Current(s, c);
    var o := s.rows[r].owner;
    assert CallOk(s, c) && RowOk(s, r);
    var u := s.(sends := t.sends);
    if s.rows[r].endpoint != "" {
      assert SendOk(s, o);
      KeepsSet(s, u, o);
    }
    assert CallOk(u, c);
    assert CallOk(u.(calls := t.calls), c);
    KeepsCall(u, c, t.calls[c]);
  }

  lemma KeepsCall(s: State, c: nat, k: Call)
    requires Inv(s) && c < |s.calls| && CallOk(s.(calls := s.calls[c := k]), c)
    ensures Inv(s.(calls := s.calls[c := k]))
  {
    var t := s.(calls := s.calls[c := k]);
    forall j | 0 <= j < |t.sends| ensures SendOk(t, j) { assert SendOk(s, j); }
    forall r | 0 <= r < |t.rows| ensures RowOk(t, r) { assert RowOk(s, r); }
    forall d | 0 <= d < |t.calls| ensures CallOk(t, d) { assert CallOk(s, d); }
  }

  lemma KeepsMark(s: State, c: nat, ok: bool)
    requires Inv(s) && CanMark(s, c)
    ensures Inv(DoMark(s, c, ok))
  {
    var t := DoMark(s, c, ok);
    assert CallOk(s, c);
    forall j | 0 <= j < |t.sends| ensures SendOk(t, j) { assert SendOk(s, j); }
    forall r | 0 <= r < |t.rows| ensures RowOk(t, r) { assert RowOk(s, r); }
    forall d | 0 <= d < |t.calls| ensures CallOk(t, d) { assert CallOk(s, d); }
  }

  lemma KeepsCrash(s: State)
    requires Inv(s)
    ensures Inv(DoCrash(s))
  {
    var t := DoCrash(s);
    forall j | 0 <= j < |t.sends| ensures SendOk(t, j) && t.sends[j].life != t.life { assert SendOk(s, j); }
    forall r | 0 <= r < |t.rows| ensures RowOk(t, r) { assert RowOk(s, r); }
    TallyNone(Failed, t.life, t.sends, |t.sends|);
    TallyNone(Filed, t.life, t.sends, |t.sends|);
  }

  lemma KeepsList(s: State)
    requires Inv(s)
    ensures Inv(Do(s, List))
  {
    var t := Do(s, List);
    OldestInRange(s.rows, |s.rows|, PAGE);
    forall j | 0 <= j < |t.sends| ensures SendOk(t, j) { assert SendOk(s, j); }
    forall r | 0 <= r < |t.rows| ensures RowOk(t, r) { assert RowOk(s, r); }
    forall d | 0 <= d < |t.calls| ensures CallOk(t, d) {
      if d < |s.calls| { assert CallOk(s, d); }
    }
  }

  lemma KeepsAttempt(s: State, i: nat, reply: Reply)
    requires Inv(s) && CanAttempt(s, i)
    ensures Inv(DoAttempt(s, i, reply))
  {
    assert SendOk(s, i);
    KeepsSet(s, DoAttempt(s, i, reply), i);
  }

  lemma KeepsCount(s: State, i: nat)
    requires Inv(s) && i < |s.sends| && s.sends[i].phase.Parked?
    ensures Inv(DoCount(s, i))
  {
    assert SendOk(s, i);
    KeepsSet(s, DoCount(s, i), i);
  }

  lemma StepKeepsInv(s: State, a: Action)
    requires Inv(s)
    ensures Inv(Do(s, a))
  {
    hide Inv, DoAttempt, DoInsert, DoCount, DoVisit, DoMark, DoCrash;
    match a
    case Notify(urls, kind, payload) => KeepsNotify(s, urls, kind, payload);
    case Attempt(i, reply) => if CanAttempt(s, i) { KeepsAttempt(s, i, reply); }
    case Insert(i, result) => if i < |s.sends| && s.sends[i].phase.Exhausted? { KeepsInsert(s, i, result); }
    case Count(i) => if i < |s.sends| && s.sends[i].phase.Parked? { KeepsCount(s, i); }
    case List => KeepsList(s);
    case Visit(c, reply) => if CanVisit(s, c) { KeepsVisit(s, c, reply); }
    case Mark(c, ok) => if CanMark(s, c) { KeepsMark(s, c, ok); }
    case Crash => KeepsCrash(s);
  }

  lemma {:induction false} RunKeepsInv(s: State, acts: seq<Action>)
    requires Inv(s)
    ensures Inv(Run(s, acts))
  {
    if acts == [] {
    } else {
      RunKeepsInv(s, acts[..|acts| - 1]);
      StepKeepsInv(Run(s, acts[..|acts| - 1]), acts[|acts| - 1]);
    }
  }
}
