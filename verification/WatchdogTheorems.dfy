/** What the watchdog guarantees over whole runs, restarts included. */
module WatchdogTheorems {
  import opened Reports
  import opened Watchdog

  // --- runs under one clock and counters that only grow ---

  predicate InOrder(e: Env) {
    var a, b, c, d := e.shots(Silence), e.shots(PollFailures), e.shots(FailedSpike), e.shots(WebhookDead);
    e.now <= a.at <= a.stamp <= b.at <= b.stamp <= c.at <= c.stamp <= d.at <= d.stamp
  }

  predicate Plausible(w: World, ev: Event) {
    match ev
    case Check(e) =>
      && w.clock <= e.now && InOrder(e)
      && (w.history != [] ==> w.history[|w.history| - 1].failed <= e.mailsFailed)
      && w.lastWebhookFail <= e.webhookFailures
    case Restart(_) => true
  }

  ghost predicate PlausibleRun(w: World, evs: seq<Event>) {
    forall n :: 0 <= n < |evs| ==> Plausible(Run(w, evs[..n]), evs[n])
  }

  lemma PlausibleFront(w: World, evs: seq<Event>)
    requires PlausibleRun(w, evs) && evs != []
    ensures PlausibleRun(w, evs[..|evs| - 1])
    ensures Plausible(Run(w, evs[..|evs| - 1]), evs[|evs| - 1])
  {
    var front := evs[..|evs| - 1];
    assert forall n :: 0 <= n < |front| ==> front[..n] == evs[..n] && front[n] == evs[n];
  }

  // --- the window ---

  predicate Sorted(h: seq<Sample>) {
    forall i, j :: 0 <= i < j < |h| ==> h[i].ts <= h[j].ts && h[i].failed <= h[j].failed
  }

  predicate Recent(x: Sample, now: int) { now - x.ts <= 86400 }

  /** q is exactly the samples of h taken within the last day, oldest first. */
  predicate Cut(h: seq<Sample>, k: nat, now: int) {
    && k <= |h|
    && (forall j :: 0 <= j < k ==> !Recent(h[j], now))
    && (forall j :: k <= j < |h| ==> Recent(h[j], now))
  }

  ghost predicate IsWindow(q: seq<Sample>, h: seq<Sample>, clock: int) {
    && Sorted(h)
    && (forall j :: 0 <= j < |h| ==> h[j].ts <= clock)
    && if h == [] then q == [] else exists k :: 0 <= k < |h| && Cut(h, k, h[|h| - 1].ts) && q == h[k..]
  }

  ghost predicate WindowOk(w: World) { IsWindow(w.samples, w.history, w.clock) }

  /** Trimming the queue is recomputing the window from the full history. */
  lemma {:induction false} TrimCut(h: seq<Sample>, k: nat, now: int) returns (cut: nat)
    requires Sorted(h) && k < |h| && h[|h| - 1].ts == now
    requires forall j :: 0 <= j < k ==> !Recent(h[j], now)
    ensures k <= cut < |h| && Trim(h[k..], now) == h[cut..] && Cut(h, cut, now)
    decreases |h| - k
  {
    if |h[k..]| > 1 && now - h[k..][0].ts > DAY {
      assert h[k..][1..] == h[k + 1..];
      cut := TrimCut(h, k + 1, now);
    } else {
      cut := k;
    }
  }

  lemma WindowStep(q: seq<Sample>, h: seq<Sample>, clock: int, x: Sample, clock': int)
    requires IsWindow(q, h, clock) && clock <= x.ts <= clock' && (h != [] ==> h[|h| - 1].failed <= x.failed)
    ensures IsWindow(Trim(q + [x], x.ts), h + [x], clock')
  {
    var h' := h + [x];
    var k := OldCut(q, h, clock, x);
    SortedAppend(h, x);
    var cut := TrimCut(h', k, x.ts);
    WindowFrom(Trim(q + [x], x.ts), h', cut, clock');
  }

  /** Where the old window begins; nothing before it is recent at the new sample. */
  lemma OldCut(q: seq<Sample>, h: seq<Sample>, clock: int, x: Sample) returns (k: nat)
    requires IsWindow(q, h, clock) && clock <= x.ts
    ensures k <= |h| && q + [x] == (h + [x])[k..]
    ensures forall j :: 0 <= j < k ==> !Recent((h + [x])[j], x.ts)
  {
    k := 0;
    if h != [] {
      k :| 0 <= k < |h| && Cut(h, k, h[|h| - 1].ts) && q == h[k..];
      forall j | 0 <= j < k ensures !Recent((h + [x])[j], x.ts) { assert !Recent(h[j], h[|h| - 1].ts); }
    }
  }

  lemma WindowFrom(q: seq<Sample>, h: seq<Sample>, cut: nat, clock: int)
    requires Sorted(h) && cut < |h| && q == h[cut..] && Cut(h, cut, h[|h| - 1].ts) && h[|h| - 1].ts <= clock
    ensures IsWindow(q, h, clock)
  {
    forall j | 0 <= j < |h| ensures h[j].ts <= clock { assert h[j].ts <= h[|h| - 1].ts; }
  }

  lemma SortedAppend(h: seq<Sample>, x: Sample)
    requires Sorted(h) && (h != [] ==> h[|h| - 1].ts <= x.ts && h[|h| - 1].failed <= x.failed)
    ensures Sorted(h + [x])
  {
  }

  lemma SampleKeepsWindow(w: World, e: Env)
    requires WindowOk(w) && Plausible(w, Check(e))
    ensures WindowOk(DoCheck(w, e))
  {
    CheckResult(w, e);
    CheckClock(w, e);
    WindowStep(w.samples, w.history, w.clock, Sample(e.now, e.mailsFailed), DoCheck(w, e).clock);
  }

  lemma CheckClock(w: World, e: Env)
    requires InOrder(e)
    ensures e.now <= DoCheck(w, e).clock
  {
  }

  // --- the cooldown ---

  ghost predicate CoolOk(w: World) {
    && (forall i :: 0 <= i < |w.alerts| && w.alerts[i].persisted ==>
          w.alerts[i].rule in w.marks && w.alerts[i].time <= w.marks[w.alerts[i].rule])
    && (forall i, j :: 0 <= i < j < |w.alerts| && w.alerts[i].rule == w.alerts[j].rule && w.alerts[i].persisted ==>
          COOLDOWN <= w.alerts[j].time - w.alerts[i].time)
    && (forall rule :: rule in w.marks ==> w.marks[rule] <= w.clock)
  }

  lemma FireCools(w: World, rule: Rule, x: Shot)
    requires CoolOk(w) && w.clock <= x.at <= x.stamp
    ensures CoolOk(Fire(w, rule, x)) && Fire(w, rule, x).clock == x.stamp
  {
    var t := Fire(w, rule, x);
    forall i, j | 0 <= i < j < |t.alerts| && t.alerts[i].rule == t.alerts[j].rule && t.alerts[i].persisted
      ensures COOLDOWN <= t.alerts[j].time - t.alerts[i].time
    {
      assert t.alerts[i] == w.alerts[i];
    }
  }

  lemma FireIfCools(firing: bool, w: World, rule: Rule, e: Env)
    requires CoolOk(w) && w.clock <= e.shots(rule).at <= e.shots(rule).stamp
    ensures CoolOk(FireIf(firing, w, rule, e)) && w.clock <= FireIf(firing, w, rule, e).clock <= e.shots(rule).stamp
  {
    if firing { FireCools(w, rule, e.shots(rule)); }
  }

  lemma CheckCools(w: World, e: Env)
    requires CoolOk(w) && Plausible(w, Check(e))
    ensures CoolOk(DoCheck(w, e))
  {
    hide FireIf, Trim;
    FireIfCools(IsSilent(e), w.(clock := e.now), Silence, e);
    FireIfCools(e.pollErrors >= POLL_LIMIT, AfterSilence(w, e), PollFailures, e);
    FireIfCools(IsSpike(w, e), AfterSample(w, e), FailedSpike, e);
    FireIfCools(IsDead(w, e), Counted(AfterSpike(w, e), e), WebhookDead, e);
  }

  // --- every run ---

  ghost predicate Inv(w: World) { WindowOk(w) && CoolOk(w) }

  lemma StepKeepsInv(w: World, ev: Event)
    requires Inv(w) && Plausible(w, ev)
    ensures Inv(Step(w, ev))
  {
    match ev
    case Check(e) =>
      SampleKeepsWindow(w, e);
      CheckCools(w, e);
    case Restart(_) =>
  }

  lemma {:induction false} RunKeepsInv(w: World, evs: seq<Event>)
    requires Inv(w) && PlausibleRun(w, evs)
    ensures Inv(Run(w, evs))
  {
    if evs == [] {
    } else {
      PlausibleFront(w, evs);
      RunKeepsInv(w, evs[..|evs| - 1]);
      StepKeepsInv(Run(w, evs[..|evs| - 1]), evs[|evs| - 1]);
    }
  }

  /** Two alerts of one rule are six hours apart or more if the first one's mark
      was stored, over any run with any number of restarts. */
  lemma AlertsSixHoursApart(counter: int, evs: seq<Event>, i: nat, j: nat)
    requires PlausibleRun(Start(counter), evs)
    requires var a := Run(Start(counter), evs).alerts; i < j < |a| && a[i].rule == a[j].rule && a[i].persisted
    ensures var a := Run(Start(counter), evs).alerts; a[j].time - a[i].time >= 21600
  {
    RunKeepsInv(Start(counter), evs);
  }

  /** After any run, a check lights failed_spike exactly when, against some sample
      of the last 24 hours since the process started, the failure counter has
      grown by the threshold. The growth it measures is never negative. */
  lemma SpikeIff(counter: int, evs: seq<Event>, e: Env)
    requires PlausibleRun(Start(counter), evs) && Plausible(Run(Start(counter), evs), Check(e))
    ensures var w := Run(Start(counter), evs);
            var t := DoCheck(w, e);
      && t.history == w.history + [Sample(e.now, e.mailsFailed)]
      && 0 <= e.mailsFailed - Earliest(t.samples)
      && (t.states.failedSpike == Firing <==>
            exists j :: 0 <= j < |t.history| && Recent(t.history[j], e.now)
              && e.spike <= e.mailsFailed - t.history[j].failed)
  {
    RunKeepsInv(Start(counter), evs);
    CheckSpike(Run(Start(counter), evs), e);
  }

  lemma CheckSpike(w: World, e: Env)
    requires WindowOk(w) && Plausible(w, Check(e))
    ensures var t := DoCheck(w, e);
      && t.history == w.history + [Sample(e.now, e.mailsFailed)]
      && 0 <= e.mailsFailed - Earliest(t.samples)
      && (t.states.failedSpike == Firing <==>
            exists j :: 0 <= j < |t.history| && Recent(t.history[j], e.now)
              && e.spike <= e.mailsFailed - t.history[j].failed)
  {
    SampleKeepsWindow(w, e);
    CheckResult(w, e);
    hide DoCheck, IsSpike;
    var t := DoCheck(w, e);
    EarliestIsLeast(t.samples, t.history, t.clock);
  }

  /** The head of the window has the least count in it. */
  lemma EarliestIsLeast(q: seq<Sample>, h: seq<Sample>, clock: int)
    requires IsWindow(q, h, clock) && h != []
    ensures forall j :: 0 <= j < |h| && Recent(h[j], h[|h| - 1].ts) ==> Earliest(q) <= h[j].failed
    ensures exists j :: 0 <= j < |h| && Recent(h[j], h[|h| - 1].ts) && Earliest(q) == h[j].failed
  {
    var k :| 0 <= k < |h| && Cut(h, k, h[|h| - 1].ts) && q == h[k..];
    assert Earliest(q) == h[k].failed && Recent(h[k], h[|h| - 1].ts);
  }

  /** The first check after a start sees no growth, however many mails failed
      before it. */
  lemma FirstCheckSeesNothing(w: World, counter: int, e: Env)
    requires e.spike > 0
    ensures DoCheck(Step(w, Restart(counter)), e).states.failedSpike == Steady
  {
    var s := Step(w, Restart(counter));
    CheckResult(s, e);
    assert s.samples + [Sample(e.now, e.mailsFailed)] == [Sample(e.now, e.mailsFailed)];
  }

  // --- webhook failures ---

  /** How many checks of a run count failure number f. */
  function CountedBy(w: World, evs: seq<Event>, f: int): nat {
    if evs == [] then 0
    else
      var n := |evs| - 1;
      CountedBy(w, evs[..n], f)
      + if evs[n].Check? && Run(w, evs[..n]).lastWebhookFail < f <= evs[n].env.webhookFailures then 1 else 0
  }

  lemma LastFail(w: World, e: Env)
    ensures DoCheck(w, e).lastWebhookFail == e.webhookFailures
  {
    CheckResult(w, e);
  }

  /** Between two restarts the deltas telescope: every failure that happened after
      the start and before the last check is in the delta of exactly one check. */
  lemma {:induction false} EachFailureCountedOnce(w: World, evs: seq<Event>, f: int)
    requires PlausibleRun(w, evs) && forall n :: 0 <= n < |evs| ==> evs[n].Check?
    ensures w.lastWebhookFail <= Run(w, evs).lastWebhookFail
    ensures CountedBy(w, evs, f) == if w.lastWebhookFail < f <= Run(w, evs).lastWebhookFail then 1 else 0
  {
    if evs == [] {
    } else {
      var n := |evs| - 1;
      PlausibleFront(w, evs);
      EachFailureCountedOnce(w, evs[..n], f);
      LastFail(Run(w, evs[..n]), evs[n].env);
    }
  }

  function AlertsOf(alerts: seq<Alert>, rule: Rule): nat {
    if alerts == [] then 0
    else AlertsOf(alerts[..|alerts| - 1], rule) + if alerts[|alerts| - 1].rule == rule then 1 else 0
  }

  lemma AlertsAppend(alerts: seq<Alert>, a: Alert, rule: Rule)
    ensures AlertsOf(alerts + [a], rule) == AlertsOf(alerts, rule) + if a.rule == rule then 1 else 0
  {
    assert (alerts + [a])[..|alerts|] == alerts;
  }

  function MarkOf(w: World, rule: Rule): Option<int> { if rule in w.marks then Some(w.marks[rule]) else None }

  /** The lookup works and the last mark of the rule, if any, is six hours old. */
  predicate Due(w: World, rule: Rule, x: Shot) {
    x.lookupOk && (MarkOf(w, rule).None? || x.at - MarkOf(w, rule).value >= 21600)
  }

  /** What a call of fire does to the alerts and the mark of its own rule and of others. */
  lemma FireIfIs(firing: bool, w: World, rule: Rule, e: Env, other: Rule)
    ensures var t, x, sent := FireIf(firing, w, rule, e), e.shots(rule), firing && Due(w, rule, e.shots(rule));
      && AlertsOf(t.alerts, other) == AlertsOf(w.alerts, other) + (if sent && other == rule then 1 else 0)
      && MarkOf(t, other) == if sent && x.markOk && other == rule then Some(x.stamp) else MarkOf(w, other)
  {
    var x := e.shots(rule);
    AlertsAppend(w.alerts, Alert(rule, x.at, x.markOk), other);
    hide AlertsOf;
    assert Sends(w.marks, rule, x) <==> Due(w, rule, x);
    hide Due, Sends;
  }

  /** Whether a check finds something wrong, rule by rule: the last ingest is longer ago
      than allowed; three or more poll cycles in a row failed; the failures since the
      oldest sample kept reach the threshold; deliveries failed since the last check. */
  predicate Wrong(w: World, e: Env, rule: Rule) {
    match rule
    case Silence => e.lastIngest.At? && e.now - e.lastIngest.time > e.silence
    case PollFailures => e.pollErrors >= 3
    case FailedSpike =>
      var kept := Trim(w.samples + [Sample(e.now, e.mailsFailed)], e.now);
      kept != [] && e.mailsFailed - kept[0].failed >= e.spike
    case WebhookDead => e.webhookFailures > w.lastWebhookFail
  }

  function LightOf(s: States, rule: Rule): Light {
    match rule
    case Silence => s.silence
    case PollFailures => s.pollFailures
    case FailedSpike => s.failedSpike
    case WebhookDead => s.webhookDead
  }

  /** Every rule, on every check: its light shows whether something is wrong; it sends one
      alert exactly when something is and the rule is due, else none; and it is marked
      exactly when it sent one and the mark could be stored. */
  lemma RuleIff(w: World, e: Env, rule: Rule)
    ensures var t, x := DoCheck(w, e), e.shots(rule);
            var sent := Wrong(w, e, rule) && Due(w, rule, x);
      && (LightOf(t.states, rule) == Firing <==> Wrong(w, e, rule))
      && AlertsOf(t.alerts, rule) == AlertsOf(w.alerts, rule) + (if sent then 1 else 0)
      && MarkOf(t, rule) == if sent && x.markOk then Some(x.stamp) else MarkOf(w, rule)
  {
    LightsShow(w, e, rule);
    Stages(w, e);
    var w0, w1, w2, w3 := w.(clock := e.now), AfterSilence(w, e), AfterSample(w, e), Counted(AfterSpike(w, e), e);
    FireIfIs(Wrong(w, e, Silence), w0, Silence, e, rule);
    FireIfIs(Wrong(w, e, PollFailures), w1, PollFailures, e, rule);
    FireIfIs(Wrong(w, e, FailedSpike), w2, FailedSpike, e, rule);
    FireIfIs(Wrong(w, e, WebhookDead), w3, WebhookDead, e, rule);
    assert MarkOf(w0, rule) == MarkOf(w, rule);
    DueIs(w0, w, rule, e.shots(rule));
    DueIs(w1, w, rule, e.shots(rule));
    DueIs(w2, w, rule, e.shots(rule));
    DueIs(w3, w, rule, e.shots(rule));
    hide *;
  }

  lemma DueIs(s: World, w: World, rule: Rule, x: Shot)
    ensures MarkOf(s, rule) == MarkOf(w, rule) ==> Due(s, rule, x) == Due(w, rule, x)
  {
  }

  lemma LightsShow(w: World, e: Env, rule: Rule)
    ensures LightOf(DoCheck(w, e).states, rule) == Firing <==> Wrong(w, e, rule)
  {
    WrongIs(w, e);
    CheckResult(w, e);
    hide DoCheck, Wrong, IsSilent, IsSpike, IsDead;
  }

  lemma WrongIs(w: World, e: Env)
    ensures Wrong(w, e, Silence) == IsSilent(e) && Wrong(w, e, PollFailures) == (e.pollErrors >= POLL_LIMIT)
    ensures Wrong(w, e, FailedSpike) == IsSpike(w, e) && Wrong(w, e, WebhookDead) == IsDead(w, e)
  {
    CheckResult(w, e);
    TrimKeepsOne(w.samples + [Sample(e.now, e.mailsFailed)], e.now);
  }

  /** A check is four calls of fire in a row; what lies between leaves alerts and marks
      alone. */
  lemma Stages(w: World, e: Env)
    ensures AfterSilence(w, e) == FireIf(Wrong(w, e, Silence), w.(clock := e.now), Silence, e)
    ensures var u, t := FireIf(Wrong(w, e, PollFailures), AfterSilence(w, e), PollFailures, e), AfterSample(w, e);
      t.alerts == u.alerts && forall rule :: MarkOf(t, rule) == MarkOf(u, rule)
    ensures var u := FireIf(Wrong(w, e, FailedSpike), AfterSample(w, e), FailedSpike, e);
            var t := Counted(AfterSpike(w, e), e);
      t.alerts == u.alerts && forall rule :: MarkOf(t, rule) == MarkOf(u, rule)
    ensures var u, t := FireIf(Wrong(w, e, WebhookDead), Counted(AfterSpike(w, e), e), WebhookDead, e), DoCheck(w, e);
      t.alerts == u.alerts && forall rule :: MarkOf(t, rule) == MarkOf(u, rule)
  {
    WrongIs(w, e);
    hide FireIf, Wrong, Trim;
  }

  /** A check sends webhook_dead exactly when the counter grew since the last
      check, the lookup worked and the rule is not cooling down. */
  lemma DeadIff(w: World, e: Env)
    ensures AlertsOf(DoCheck(w, e).alerts, WebhookDead) == AlertsOf(w.alerts, WebhookDead)
      + if w.lastWebhookFail < e.webhookFailures && Sends(w.marks, WebhookDead, e.shots(WebhookDead)) then 1 else 0
  {
    RuleIff(w, e, WebhookDead);
    hide DoCheck, AlertsOf;
  }

  /** Failures counted while the rule cools down are consumed: no later check
      alerts for them, even long after the cooldown, unless more follow. */
  lemma {:induction false} CooledFailuresAreSwallowed(w: World, e: Env, evs: seq<Event>)
    requires Cooling(w.marks, WebhookDead, e.shots(WebhookDead).at)
    requires forall n :: 0 <= n < |evs| ==> evs[n].Check? && evs[n].env.webhookFailures == e.webhookFailures
    ensures AlertsOf(Run(DoCheck(w, e), evs).alerts, WebhookDead) == AlertsOf(w.alerts, WebhookDead)
    ensures Run(DoCheck(w, e), evs).lastWebhookFail == e.webhookFailures
  {
    if evs == [] {
      DeadIff(w, e);
      LastFail(w, e);
    } else {
      var n := |evs| - 1;
      CooledFailuresAreSwallowed(w, e, evs[..n]);
      DeadIff(Run(DoCheck(w, e), evs[..n]), evs[n].env);
      LastFail(Run(DoCheck(w, e), evs[..n]), evs[n].env);
    }
  }

  // --- failure by failure ---

  /** The n-th check of the run counts failure number f. */
  predicate CountsAt(w: World, evs: seq<Event>, n: nat, f: int) {
    n < |evs| && evs[n].Check? && Run(w, evs[..n]).lastWebhookFail < f <= evs[n].env.webhookFailures
  }

  /** It sends webhook_dead. */
  predicate SentAt(w: World, evs: seq<Event>, n: nat) {
    n < |evs|
    && AlertsOf(Step(Run(w, evs[..n]), evs[n]).alerts, WebhookDead)
       == AlertsOf(Run(w, evs[..n]).alerts, WebhookDead) + 1
  }

  lemma PrefixStep(w: World, evs: seq<Event>, n: nat)
    requires n < |evs|
    ensures Run(w, evs[..n + 1]) == Step(Run(w, evs[..n]), evs[n])
  {
    assert evs[..n + 1][..n] == evs[..n];
  }

  lemma {:induction false} CounterGrows(w: World, evs: seq<Event>, m: nat, n: nat)
    requires PlausibleRun(w, evs) && m <= n <= |evs| && forall i :: 0 <= i < |evs| ==> evs[i].Check?
    ensures Run(w, evs[..m]).lastWebhookFail <= Run(w, evs[..n]).lastWebhookFail
  {
    if m == n {
    } else {
      CounterGrows(w, evs, m, n - 1);
      PrefixStep(w, evs, n - 1);
      assert Plausible(Run(w, evs[..n - 1]), evs[n - 1]);
      LastFail(Run(w, evs[..n - 1]), evs[n - 1].env);
    }
  }

  lemma CountedAtOneCheck(w: World, evs: seq<Event>, f: int, m: nat, n: nat)
    requires PlausibleRun(w, evs) && forall i :: 0 <= i < |evs| ==> evs[i].Check?
    requires m < n && CountsAt(w, evs, m, f)
    ensures !CountsAt(w, evs, n, f)
  {
    if n < |evs| {
      PrefixStep(w, evs, m);
      LastFail(Run(w, evs[..m]), evs[m].env);
      CounterGrows(w, evs, m + 1, n);
    }
  }

  lemma {:induction false} CountedSomewhere(w: World, evs: seq<Event>, f: int) returns (n: nat)
    requires PlausibleRun(w, evs) && forall i :: 0 <= i < |evs| ==> evs[i].Check?
    requires w.lastWebhookFail < f <= Run(w, evs).lastWebhookFail
    ensures CountsAt(w, evs, n, f)
  {
    var last := |evs| - 1;
    if f <= Run(w, evs[..last]).lastWebhookFail {
      PlausibleFront(w, evs);
      n := CountedSomewhere(w, evs[..last], f);
      assert evs[..last][..n] == evs[..n];
    } else {
      LastFail(Run(w, evs[..last]), evs[last].env);
      n := last;
    }
  }

  /** Each delivery failure between two restarts is counted by one check, and it is
      alerted exactly when in that check the lookup worked and the rule was not
      cooling down. */
  lemma AlertedIff(w: World, evs: seq<Event>, f: int) returns (n: nat)
    requires PlausibleRun(w, evs) && forall i :: 0 <= i < |evs| ==> evs[i].Check?
    requires w.lastWebhookFail < f <= Run(w, evs).lastWebhookFail
    ensures forall m: nat :: CountsAt(w, evs, m, f) <==> m == n
    ensures n < |evs| && evs[n].Check?
    ensures SentAt(w, evs, n) <==> Sends(Run(w, evs[..n]).marks, WebhookDead, evs[n].env.shots(WebhookDead))
  {
    n := CountedSomewhere(w, evs, f);
    forall m: nat | CountsAt(w, evs, m, f) ensures m == n {
      if m < n { CountedAtOneCheck(w, evs, f, m, n); } else if n < m { CountedAtOneCheck(w, evs, f, n, m); }
    }
    DeadIff(Run(w, evs[..n]), evs[n].env);
  }
}
