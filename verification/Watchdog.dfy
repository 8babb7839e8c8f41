/** The ingestion watchdog: four rules checked on a timer, a 24 hour window over a
    failure counter and a six hour cooldown per rule kept in alert_state
    (parser/internal/watchdog/watchdog.go, parser/internal/store/store.go).
    Times are seconds. */
module Watchdog {
  const DAY := 24 * 3600
  const COOLDOWN := 6 * 3600
  const POLL_LIMIT := 3

  datatype Rule = Silence | PollFailures | FailedSpike | WebhookDead

  datatype Light = Steady | Firing

  datatype States = States(silence: Light, pollFailures: Light, failedSpike: Light, webhookDead: Light)

  datatype Sample = Sample(ts: int, failed: int)

  datatype LastIngest = LookupFailed | Never | At(time: int)

  /** The fate of one call of fire: the alert_state lookup, the clock when the
      cooldown is tested, the timestamp the mark would get, and the mark. */
  datatype Shot = Shot(lookupOk: bool, at: int, stamp: int, markOk: bool)

  /** What one check reads, and what happens to its up to four alerts. */
  datatype Env = Env(
    now: int, lastIngest: LastIngest, silence: int, pollErrors: int, mailsFailed: int, spike: int, webhookFailures: int,
    shots: Rule -> Shot)

  datatype Alert = Alert(rule: Rule, time: int, persisted: bool)

  /** samples, lastWebhookFail and states are process memory, marks is the
      alert_state table. The rest is history, for stating properties: the alerts
      sent, every sample since the start, the webhook counter at the start, the
      sum of the webhook deltas since, and the latest time anything happened. */
  datatype World = World(
    samples: seq<Sample>, lastWebhookFail: int, states: States, marks: map<Rule, int>,
    alerts: seq<Alert>, history: seq<Sample>, started: int, counted: int, clock: int)

  datatype Event = Check(env: Env) | Restart(counter: int)

  // --- one check ---

  predicate Cooling(marks: map<Rule, int>, rule: Rule, at: int) {
    rule in marks && at - marks[rule] < COOLDOWN
  }

  predicate Sends(marks: map<Rule, int>, rule: Rule, x: Shot) {
    x.lookupOk && !Cooling(marks, rule, x.at)
  }

  function Sent(alerts: seq<Alert>, marks: map<Rule, int>, rule: Rule, x: Shot): seq<Alert> {
    if Sends(marks, rule, x) then alerts + [Alert(rule, x.at, x.markOk)] else alerts
  }

  function Marked(marks: map<Rule, int>, rule: Rule, x: Shot): map<Rule, int> {
    if Sends(marks, rule, x) && x.markOk then marks[rule := x.stamp] else marks
  }

  function Fire(w: World, rule: Rule, x: Shot): World {
    w.(alerts := Sent(w.alerts, w.marks, rule, x), marks := Marked(w.marks, rule, x), clock := x.stamp)
  }

  function FireIf(firing: bool, w: World, rule: Rule, e: Env): World {
    if firing then Fire(w, rule, e.shots(rule)) else w
  }

  /** Drop samples from the front while they are over a day old, keeping one. */
  function Trim(q: seq<Sample>, now: int): seq<Sample> {
    if |q| > 1 && now - q[0].ts > DAY then Trim(q[1..], now) else q
  }

  lemma {:induction false} TrimKeepsOne(q: seq<Sample>, now: int)
    requires q != []
    ensures Trim(q, now) != []
  {
    if |q| == 1 {
    } else {
      TrimKeepsOne(q[1..], now);
    }
  }

  predicate IsSilent(e: Env) { e.lastIngest.At? && e.now - e.lastIngest.time > e.silence }

  function Sampled(w: World, e: Env): World {
    w.(samples := Trim(w.samples + [Sample(e.now, e.mailsFailed)], e.now),
       history := w.history + [Sample(e.now, e.mailsFailed)])
  }

  function Earliest(q: seq<Sample>): int {
    if q == [] then 0 else q[0].failed
  }

  function Delta(w: World, e: Env): int {
    e.mailsFailed - Earliest(w.samples)
  }

  function Counted(w: World, e: Env): World {
    w.(lastWebhookFail := e.webhookFailures, counted := w.counted + (e.webhookFailures - w.lastWebhookFail))
  }

  function Lit(firing: bool): Light { if firing then Firing else Steady }

  function AfterSilence(w: World, e: Env): World { FireIf(IsSilent(e), w.(clock := e.now), Silence, e) }

  function AfterPoll(w: World, e: Env): World {
    FireIf(e.pollErrors >= POLL_LIMIT, AfterSilence(w, e), PollFailures, e)
  }

  function AfterSample(w: World, e: Env): World { Sampled(AfterPoll(w, e), e) }

  predicate IsSpike(w: World, e: Env) { Delta(AfterSample(w, e), e) >= e.spike }

  function AfterSpike(w: World, e: Env): World { FireIf(IsSpike(w, e), AfterSample(w, e), FailedSpike, e) }

  predicate IsDead(w: World, e: Env) { e.webhookFailures - w.lastWebhookFail > 0 }

  function AfterWebhook(w: World, e: Env): World { FireIf(IsDead(w, e), Counted(AfterSpike(w, e), e), WebhookDead, e) }

  function DoCheck(w: World, e: Env): World {
    AfterWebhook(w, e).(states :=
      States(Lit(IsSilent(e)), Lit(e.pollErrors >= POLL_LIMIT), Lit(IsSpike(w, e)), Lit(IsDead(w, e))))
  }

  const STEADY := States(Steady, Steady, Steady, Steady)

  function Step(w: World, ev: Event): World {
    match ev
    case Check(e) => DoCheck(w, e)
    case Restart(counter) => World([], counter, STEADY, w.marks, w.alerts, [], counter, 0, w.clock)
  }

  function Run(w: World, evs: seq<Event>): World {
    if evs == [] then w else Step(Run(w, evs[..|evs| - 1]), evs[|evs| - 1])
  }

  function Start(counter: int): World { World([], counter, STEADY, map[], [], [], counter, 0, 0) }

  /** Field by field, what one check leaves. */
  lemma CheckParts(w: World, e: Env)
    ensures var a, b, t, u := w.marks, AfterSilence(w, e), AfterPoll(w, e), AfterSpike(w, e);
      && b.marks == (if IsSilent(e) then Marked(a, Silence, e.shots(Silence)) else a)
      && b.alerts == (if IsSilent(e) then Sent(w.alerts, a, Silence, e.shots(Silence)) else w.alerts)
      && t.marks
         == (if e.pollErrors >= POLL_LIMIT then Marked(b.marks, PollFailures, e.shots(PollFailures)) else b.marks)
      && t.alerts
         == (if e.pollErrors >= POLL_LIMIT
             then Sent(b.alerts, b.marks, PollFailures, e.shots(PollFailures))
             else b.alerts)
      && u.marks == (if IsSpike(w, e) then Marked(t.marks, FailedSpike, e.shots(FailedSpike)) else t.marks)
      && u.alerts == (if IsSpike(w, e) then Sent(t.alerts, t.marks, FailedSpike, e.shots(FailedSpike)) else t.alerts)
  {
  }

  lemma CheckResult(w: World, e: Env)
    ensures var t, u := DoCheck(w, e), AfterSpike(w, e);
      && t.samples == Trim(w.samples + [Sample(e.now, e.mailsFailed)], e.now) && t.lastWebhookFail == e.webhookFailures
      && t.history == w.history + [Sample(e.now, e.mailsFailed)]
      && (IsSpike(w, e) <==> e.mailsFailed - Earliest(t.samples) >= e.spike)
      && t.states == States(Lit(IsSilent(e)), Lit(e.pollErrors >= POLL_LIMIT), Lit(IsSpike(w, e)), Lit(IsDead(w, e)))
      && t.marks == (if IsDead(w, e) then Marked(u.marks, WebhookDead, e.shots(WebhookDead)) else u.marks)
      && t.alerts == (if IsDead(w, e) then Sent(u.alerts, u.marks, WebhookDead, e.shots(WebhookDead)) else u.alerts)
  {
    TrimKeepsOne(w.samples + [Sample(e.now, e.mailsFailed)], e.now);
  }

  // --- the code ---

  class Watchdog {
    var failedSamples: seq<Sample>
    var lastWebhookFail: int
    var states: States
    var marks: map<Rule, int>
    var alerts: seq<Alert>
    ghost var world: World

    ghost predicate Valid()
      reads this
    {
      && failedSamples == world.samples && lastWebhookFail == world.lastWebhookFail && states == world.states
      && marks == world.marks && alerts == world.alerts
    }

    constructor (counter: int)
      ensures Valid() && world == Start(counter)
    {
      failedSamples, lastWebhookFail, states, marks, alerts := [], counter, STEADY, map[], [];
      world := Start(counter);
    }

    method FireAlert(rule: Rule, x: Shot)
      modifies this`marks, this`alerts
      ensures alerts == Sent(old(alerts), old(marks), rule, x) && marks == Marked(old(marks), rule, x)
    {
      if !x.lookupOk {
        return;
      }
      if rule in marks && x.at - marks[rule] < COOLDOWN {
        return;
      }
      alerts := alerts + [Alert(rule, x.at, x.markOk)];
      if x.markOk {
        marks := marks[rule := x.stamp];
      }
    }

    method RunCheck(e: Env)
      requires Valid()
      modifies this
      ensures Valid() && world == DoCheck(old(world), e)
    {
      ghost var w := world;
      CheckParts(w, e);
      CheckResult(w, e);
      hide Sent, Marked, DoCheck, AfterWebhook, AfterSpike, AfterSample, AfterPoll, AfterSilence, IsSpike;
      var silenceState := Steady;
      if e.lastIngest.At? && e.now - e.lastIngest.time > e.silence {
        silenceState := Firing;
        FireAlert(Silence, e.shots(Silence));
      }
      var pollState := Steady;
      if e.pollErrors >= POLL_LIMIT {
        pollState := Firing;
        FireAlert(PollFailures, e.shots(PollFailures));
      }
      var failedState := Steady;
      failedSamples := failedSamples + [Sample(e.now, e.mailsFailed)];
      ghost var grown := failedSamples;
      while |failedSamples| > 1 && e.now - failedSamples[0].ts > DAY
        invariant failedSamples != [] && Trim(failedSamples, e.now) == Trim(grown, e.now)
        decreases |failedSamples|
        modifies this`failedSamples
      {
        failedSamples := failedSamples[1..];
      }
      assert failedSamples == DoCheck(w, e).samples;
      var delta := e.mailsFailed - failedSamples[0].failed;
      if delta >= e.spike {
        failedState := Firing;
        FireAlert(FailedSpike, e.shots(FailedSpike));
      }
      var webhookState := Steady;
      var whDelta := e.webhookFailures - lastWebhookFail;
      lastWebhookFail := e.webhookFailures;
      if whDelta > 0 {
        webhookState := Firing;
        FireAlert(WebhookDead, e.shots(WebhookDead));
      }
      states := States(silenceState, pollState, failedState, webhookState);
      world := DoCheck(w, e);
    }
  }
}
