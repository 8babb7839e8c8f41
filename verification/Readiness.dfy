/** Whether a domain may tighten its policy, and what stands in the way
    (parser/internal/store/store_stats.go). */
module Readiness {
  import opened Reports
  import Health

  datatype FailSource = FailSource(ip: string, msgs: int, senderClass: Option<string>)

  datatype Verdict = Monitor | FixAlignment | StepPct | Enforce

  datatype Blocker = NoTraffic | LowRate | UnknownSource(ip: string, msgs: int)

  const LIMIT := 10

  predicate Classified(f: FailSource) { f.senderClass.Some? && f.senderClass.value != "" }

  predicate Suspicious(f: FailSource) { !Classified(f) && f.msgs > 100 }

  predicate AnyClassified(fails: seq<FailSource>) { exists i :: 0 <= i < |fails| && Classified(fails[i]) }

  predicate AnySuspicious(fails: seq<FailSource>) { exists i :: 0 <= i < |fails| && Suspicious(fails[i]) }

  predicate FullReject(p: Option<string>, pct: Option<int>) {
    Health.PolicyOf(p) == "reject" && (pct.None? || pct.value >= 100)
  }

  predicate Enforced(p: Option<string>) {
    Health.PolicyOf(p) == "reject" || Health.PolicyOf(p) == "quarantine"
  }

  /** The suspicious sources in list order. */
  function Unknowns(fails: seq<FailSource>): seq<Blocker> {
    if fails == [] then []
    else
      var f := fails[|fails| - 1];
      Unknowns(fails[..|fails| - 1]) + if Suspicious(f) then [UnknownSource(f.ip, f.msgs)] else []
  }

  function Blockers(rate90: real, msgs90: int, fails: seq<FailSource>): seq<Blocker> {
    if msgs90 == 0 then [NoTraffic]
    else (if rate90 < 0.995 then [LowRate] else []) + Unknowns(fails)
  }

  /** The rules as a table, without the loop. */
  function Decide(p: Option<string>, pct: Option<int>, rate90: real, msgs90: int, fails: seq<FailSource>): Verdict {
    if msgs90 == 0 then Monitor
    else if rate90 < 0.995 || AnySuspicious(fails) then
      if AnyClassified(fails) then FixAlignment else Monitor
    else Clean(p, pct)
  }

  function Clean(p: Option<string>, pct: Option<int>): Verdict {
    if FullReject(p, pct) then Monitor
    else if Enforced(p) && pct.Some? && pct.value < 100 then StepPct
    else Enforce
  }

  method Recommend(p: Option<string>, pct: Option<int>, rate90: real, msgs90: int, fails: seq<FailSource>)
    returns (verdict: Verdict, blockers: seq<Blocker>)
    ensures verdict == Decide(p, pct, rate90, msgs90, fails)
    ensures blockers == Blockers(rate90, msgs90, fails)
  {
    if msgs90 == 0 {
      return Monitor, [NoTraffic];
    }
    blockers := [];
    if rate90 < 0.995 {
      blockers := blockers + [LowRate];
    }
    var knownClassFailing := false;
    NoneYet(rate90, msgs90, fails);
    hide Blockers, AnyClassified, AnySuspicious, Unknowns;
    for i := 0 to |fails|
      invariant blockers == Blockers(rate90, msgs90, fails[..i])
      invariant knownClassFailing <==> AnyClassified(fails[..i])
    {
      NextSource(rate90, msgs90, fails, i);
      var f := fails[i];
      if f.senderClass.Some? && f.senderClass.value != "" {
        knownClassFailing := true;
      } else if f.msgs > 100 {
        blockers := blockers + [UnknownSource(f.ip, f.msgs)];
      }
    }
    assert fails[..|fails|] == fails;
    BlockedIff(rate90, msgs90, fails);
    if |blockers| > 0 {
      return if knownClassFailing then FixAlignment else Monitor, blockers;
    }
    var pol := Health.PolicyOf(p);
    var fullPct := pct.None? || pct.value >= 100;
    if pol == "reject" && fullPct {
      return Monitor, blockers;
    } else if (pol == "reject" || pol == "quarantine") && !fullPct {
      return StepPct, blockers;
    } else {
      return Enforce, blockers;
    }
  }

  lemma NoneYet(rate90: real, msgs90: int, fails: seq<FailSource>)
    requires msgs90 != 0
    ensures Blockers(rate90, msgs90, fails[..0]) == if rate90 < 0.995 then [LowRate] else []
    ensures !AnyClassified(fails[..0])
  {
  }

  lemma NextSource(rate90: real, msgs90: int, fails: seq<FailSource>, i: nat)
    requires msgs90 != 0 && i < |fails|
    ensures Blockers(rate90, msgs90, fails[..i + 1])
      == Blockers(rate90, msgs90, fails[..i])
         + if Suspicious(fails[i]) then [UnknownSource(fails[i].ip, fails[i].msgs)] else []
    ensures AnyClassified(fails[..i + 1]) <==> AnyClassified(fails[..i]) || Classified(fails[i])
  {
    assert fails[..i + 1][..i] == fails[..i];
    assert fails[..i + 1] == fails[..i] + [fails[i]];
    AnySplit(fails[..i], [fails[i]]);
  }

  lemma BlockedIff(rate90: real, msgs90: int, fails: seq<FailSource>)
    requires msgs90 != 0
    ensures Blockers(rate90, msgs90, fails) != [] <==> rate90 < 0.995 || AnySuspicious(fails)
  {
    UnknownsIff(fails);
  }

  lemma {:induction false} UnknownsIff(fails: seq<FailSource>)
    ensures Unknowns(fails) == [] <==> !AnySuspicious(fails)
  {
    if fails == [] {
    } else {
      var n := |fails| - 1;
      UnknownsIff(fails[..n]);
      if AnySuspicious(fails[..n]) {
        var i :| 0 <= i < n && Suspicious(fails[..n][i]);
        assert Suspicious(fails[i]);
      }
      if AnySuspicious(fails) && !Suspicious(fails[n]) {
        var i :| 0 <= i < |fails| && Suspicious(fails[i]);
        assert Suspicious(fails[..n][i]);
      }
    }
  }

  /** Exactly when a domain is told to advance, and that nothing is then listed
      as standing in its way. */
  lemma AdvanceIff(p: Option<string>, pct: Option<int>, rate90: real, msgs90: int, fails: seq<FailSource>)
    ensures var verdict := Decide(p, pct, rate90, msgs90, fails);
      && (verdict == Enforce || verdict == StepPct <==>
            msgs90 != 0 && rate90 >= 0.995 && !FullReject(p, pct)
            && forall i :: 0 <= i < |fails| ==> Classified(fails[i]) || fails[i].msgs <= 100)
      && (verdict == Enforce || verdict == StepPct ==> Blockers(rate90, msgs90, fails) == [])
      && (verdict == FixAlignment ==> Blockers(rate90, msgs90, fails) != [])
  {
    UnknownsIff(fails);
    assert AnySuspicious(fails) <==> !(forall i :: 0 <= i < |fails| ==> Classified(fails[i]) || fails[i].msgs <= 100);
  }

  /** The source belongs to no known class and has more than 100 failing messages. */
  predicate Unexplained(f: FailSource) { (f.senderClass.None? || f.senderClass.value == "") && f.msgs > 100 }

  predicate Explained(f: FailSource) { f.senderClass.Some? && f.senderClass.value != "" }

  /** The verdicts one by one. Without traffic: monitor. With something in the way, a
      rate below 99.5 % or an unexplained source: fix the alignment if a known class
      fails, else monitor. With nothing in the way: step_pct for reject or quarantine on
      less than all mail, monitor for reject on all of it, enforce for the rest. */
  lemma VerdictIs(p: Option<string>, pct: Option<int>, rate90: real, msgs90: int, fails: seq<FailSource>)
    ensures var verdict := Decide(p, pct, rate90, msgs90, fails);
            var blocked := rate90 < 0.995 || exists i :: 0 <= i < |fails| && Unexplained(fails[i]);
            var known := exists i :: 0 <= i < |fails| && Explained(fails[i]);
            var onAll := pct.None? || 100 <= pct.value;
      && (verdict == FixAlignment <==> msgs90 != 0 && blocked && known)
      && (verdict == StepPct <==>
            msgs90 != 0 && !blocked && !onAll && (p == Some("reject") || p == Some("quarantine")))
      && (verdict == Enforce <==>
            msgs90 != 0 && !blocked && p != Some("reject") && (onAll || p != Some("quarantine")))
  {
    assert AnySuspicious(fails) <==> exists i :: 0 <= i < |fails| && Unexplained(fails[i]);
    assert AnyClassified(fails) <==> exists i :: 0 <= i < |fails| && Explained(fails[i]);
    hide AnySuspicious, AnyClassified;
  }

  /** What stands in the way is listed completely and in order: the rate first, then
      every unexplained source with its address and volume; without traffic only that. */
  lemma {:induction false} BlockersAre(rate90: real, msgs90: int, fails: seq<FailSource>) returns (at: seq<nat>)
    ensures forall j, k :: 0 <= j < k < |at| ==> at[j] < at[k]
    ensures forall i: nat :: i in at <==> i < |fails| && Unexplained(fails[i])
    ensures msgs90 == 0 ==> Blockers(rate90, msgs90, fails) == [NoTraffic]
    ensures msgs90 != 0 ==>
      var low := if rate90 < 0.995 then [LowRate] else [];
      && |Blockers(rate90, msgs90, fails)| == |low| + |at| && low <= Blockers(rate90, msgs90, fails)
      && forall k :: 0 <= k < |at| && at[k] < |fails| ==>
           Blockers(rate90, msgs90, fails)[|low| + k] == UnknownSource(fails[at[k]].ip, fails[at[k]].msgs)
  {
    at := UnknownsAt(fails);
    hide Unknowns;
  }

  lemma {:induction false} UnknownsAt(fails: seq<FailSource>) returns (at: seq<nat>)
    ensures forall j, k :: 0 <= j < k < |at| ==> at[j] < at[k]
    ensures forall i: nat :: i in at <==> i < |fails| && Unexplained(fails[i])
    ensures |Unknowns(fails)| == |at|
    ensures forall k :: 0 <= k < |at| && at[k] < |fails| ==>
      Unknowns(fails)[k] == UnknownSource(fails[at[k]].ip, fails[at[k]].msgs)
  {
    at := [];
    if fails != [] {
      var n := |fails| - 1;
      at := UnknownsAt(fails[..n]);
      assert forall k :: 0 <= k < |at| ==> at[k] in at;
      if Unexplained(fails[n]) { at := at + [n]; }
    }
  }

  // --- order ---

  lemma AnyPermute(a: seq<FailSource>, b: seq<FailSource>)
    requires multiset(a) == multiset(b)
    ensures AnySuspicious(a) ==> AnySuspicious(b)
    ensures AnyClassified(a) ==> AnyClassified(b)
  {
    assert forall f :: f in multiset(a) <==> f in multiset(b);
    if AnySuspicious(a) {
      var i :| 0 <= i < |a| && Suspicious(a[i]);
      assert a[i] in multiset(a);
    }
    if AnyClassified(a) {
      var i :| 0 <= i < |a| && Classified(a[i]);
      assert a[i] in multiset(a);
    }
  }

  /** The verdict does not depend on the order of the sources. */
  lemma OrderIrrelevant(p: Option<string>, pct: Option<int>, rate90: real, msgs90: int, a: seq<FailSource>,
      b: seq<FailSource>)
    requires multiset(a) == multiset(b)
    ensures Decide(p, pct, rate90, msgs90, a) == Decide(p, pct, rate90, msgs90, b)
  {
    AnyPermute(a, b);
    AnyPermute(b, a);
  }

  // --- LIMIT 10 ---

  predicate Descending(fails: seq<FailSource>) {
    forall i, j :: 0 <= i < j < |fails| ==> fails[i].msgs >= fails[j].msgs
  }

  function Kept(fails: seq<FailSource>): seq<FailSource> {
    if |fails| <= LIMIT then fails else fails[..LIMIT]
  }

  function Dropped(fails: seq<FailSource>): seq<FailSource> {
    if |fails| <= LIMIT then [] else fails[LIMIT..]
  }

  lemma {:induction false} UnknownsConcat(a: seq<FailSource>, b: seq<FailSource>)
    ensures Unknowns(a + b) == Unknowns(a) + Unknowns(b)
  {
    if b == [] {
      assert a + b == a;
    } else {
      var n := |b| - 1;
      UnknownsConcat(a, b[..n]);
      assert (a + b)[..|a + b| - 1] == a + b[..n];
    }
  }

  lemma AnySplit(a: seq<FailSource>, b: seq<FailSource>)
    ensures AnySuspicious(a + b) <==> AnySuspicious(a) || AnySuspicious(b)
    ensures AnyClassified(a + b) <==> AnyClassified(a) || AnyClassified(b)
  {
    var c := a + b;
    assert forall i :: 0 <= i < |b| ==> c[|a| + i] == b[i];
    assert forall i :: 0 <= i < |a| ==> c[i] == a[i];
  }

  /** Looking at the first ten sources only reports the same blockers exactly
      when no source left out is suspicious. */
  lemma BlockersSurviveLimitIff(rate90: real, msgs90: int, fails: seq<FailSource>)
    requires msgs90 != 0
    ensures Blockers(rate90, msgs90, Kept(fails)) == Blockers(rate90, msgs90, fails) <==> !AnySuspicious(Dropped(fails))
  {
    assert fails == Kept(fails) + Dropped(fails);
    UnknownsConcat(Kept(fails), Dropped(fails));
    UnknownsIff(Dropped(fails));
    var low := if rate90 < 0.995 then [LowRate] else [];
    assert |Blockers(rate90, msgs90, fails)| == |low| + |Unknowns(Kept(fails))| + |Unknowns(Dropped(fails))|;
  }

  /** A descending list loses no suspicious source when it has at most ten
      entries or its tenth is at most 100. */
  lemma LimitIsSafe(fails: seq<FailSource>)
    requires Descending(fails) && (|fails| <= 10 || fails[9].msgs <= 100)
    ensures !AnySuspicious(Dropped(fails))
  {
    forall i | 0 <= i < |Dropped(fails)| ensures !Suspicious(Dropped(fails)[i]) {
      assert Dropped(fails)[i] == fails[LIMIT + i];
    }
  }

  /** Exactly when the verdict on the first ten sources is the verdict on all of
      them. If something kept blocks, a known class must not be dropped as the
      only one. If nothing kept blocks, nothing suspicious may be dropped, unless
      the domain is fully enforced and has no classified source at all. */
  lemma VerdictSurvivesLimitIff(p: Option<string>, pct: Option<int>, rate90: real, msgs90: int, fails: seq<FailSource>)
    ensures Decide(p, pct, rate90, msgs90, Kept(fails)) == Decide(p, pct, rate90, msgs90, fails) <==>
      || msgs90 == 0
      || (if rate90 < 0.995 || AnySuspicious(Kept(fails))
          then AnyClassified(Kept(fails)) || !AnyClassified(Dropped(fails))
          else !AnySuspicious(Dropped(fails)) || (FullReject(p, pct) && !AnyClassified(fails)))
  {
    assert fails == Kept(fails) + Dropped(fails);
    AnySplit(Kept(fails), Dropped(fails));
  }

  /** It can go wrong: ten large classified sources hide an unclassified one, with
      2150 failing messages in a million. */
  lemma LimitCanFlipVerdict()
    ensures exists fails ::
      && Descending(fails) && Failing(fails, |fails|) == 1000000 - 997850
      && Decide(Some("none"), None, Health.Ratio(997850, 1000000), 1000000, Kept(fails)) == Enforce
      && Decide(Some("none"), None, Health.Ratio(997850, 1000000), 1000000, fails) == FixAlignment
  {
    var fails := Hiding();
    var rate := Health.Ratio(997850, 1000000);
    assert rate == 0.99785;
    assert Clean(Some("none"), None) == Enforce;
    HidingIs();
    hide Clean, AnySuspicious, AnyClassified, Failing, Kept, Descending;
    assert Decide(Some("none"), None, rate, 1000000, Kept(fails)) == Enforce;
    assert Decide(Some("none"), None, rate, 1000000, fails) == FixAlignment;
  }

  const KNOWN := FailSource("192.0.2.1", 200, Some("esp"))
  const HIDDEN := FailSource("198.51.100.1", 150, None)

  function Hiding(): seq<FailSource> { seq(10, i => KNOWN) + [HIDDEN] }

  lemma HidingIs()
    ensures Descending(Hiding()) && Failing(Hiding(), |Hiding()|) == 2150
    ensures !AnySuspicious(Kept(Hiding())) && AnySuspicious(Hiding()) && AnyClassified(Hiding())
  {
    var fails := Hiding();
    assert |KNOWN.senderClass.value| == 3;
    assert Kept(fails) == seq(10, i => KNOWN);
    assert fails[10] == HIDDEN && Suspicious(HIDDEN);
    assert fails[0] == KNOWN && Classified(KNOWN);
    SameFailing(fails, 10, 200);
    assert Failing(fails, 11) == Failing(fails, 10) + 150;
  }

  /** The failing messages of the first n sources. */
  function Failing(fails: seq<FailSource>, n: nat): int
    requires n <= |fails|
  {
    if n == 0 then 0 else Failing(fails, n - 1) + fails[n - 1].msgs
  }

  lemma {:induction false} SameFailing(fails: seq<FailSource>, n: nat, msgs: int)
    requires n <= |fails| && forall i :: 0 <= i < n ==> fails[i].msgs == msgs
    ensures Failing(fails, n) == n * msgs
  {
    if n == 0 {
    } else {
      SameFailing(fails, n - 1, msgs);
    }
  }

  // --- what the rate means ---

  lemma DivAtLeast(a: real, b: real, t: real)
    requires t > 0.0
    ensures a / t >= b <==> a >= b * t
  {
  }

  /** A domain is told to advance only if at most one message in 200 of the 90
      day window is unaligned. */
  lemma AdvanceMeansAligned(p: Option<string>, pct: Option<int>, aligned90: int, msgs90: int, fails: seq<FailSource>)
    ensures Decide(p, pct, Health.Ratio(aligned90, msgs90), msgs90, fails) !in {Monitor, FixAlignment} <==>
      msgs90 > 0 && 200 * (msgs90 - aligned90) <= msgs90 && !AnySuspicious(fails) && !FullReject(p, pct)
  {
    if msgs90 > 0 {
      DivAtLeast(aligned90 as real, 0.995, msgs90 as real);
      assert aligned90 as real >= 0.995 * msgs90 as real <==> 200.0 * aligned90 as real >= 199.0 * msgs90 as real;
      assert 200.0 * aligned90 as real == (200 * aligned90) as real && 199.0 * msgs90 as real == (199 * msgs90) as real;
    }
  }
}
