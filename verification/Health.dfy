/** The 0-100 health score of a domain and what it owes to the daily table
    (parser/internal/store/store_stats.go). Floats are modelled as reals. */
module Health {
  import opened Reports
  import opened Ledger
  import opened Rollup
  import opened Ingest
  import opened IngestTheorems

  datatype Inputs = Inputs(
    msgs30: int, aligned30: int, msgsPrior: int, alignedPrior: int,
    days: int, unknownFailing: int, p: Option<string>, pct: Option<int>)

  datatype Name = AlignmentC | TrendC | PolicyC | CoverageC | UnknownSourcesC

  datatype Component = Component(name: Name, score: real, max: real)

  function Ratio(part: int, total: int): real {
    if total <= 0 then 0.0 else part as real / total as real
  }

  function Round1(v: real): real {
    if v < 0.0 then 0.0 else (v * 10.0 + 0.5).Floor as real / 10.0
  }

  function Clamp0(v: real): real { if v < 0.0 then 0.0 else v }

  // The five weighted inputs, before rounding.

  function Alignment(x: Inputs): real {
    40.0 * Ratio(x.aligned30, x.msgs30)
  }

  function Trend(x: Inputs): real {
    if x.msgsPrior > 0 && x.msgs30 > 0 then
      var delta := Ratio(x.aligned30, x.msgs30) - Ratio(x.alignedPrior, x.msgsPrior);
      if delta < 0.0 then 15.0 * Clamp0(1.0 + delta * 4.0) else 15.0
    else 15.0
  }

  function PolicyOf(p: Option<string>): string {
    if p.Some? && p.value != "" then p.value else "none"
  }

  function Fraction(pct: Option<int>): real {
    if pct.Some? && 0 <= pct.value <= 100 then pct.value as real / 100.0 else 1.0
  }

  function Policy(x: Inputs): real {
    var pol := PolicyOf(x.p);
    var base :=
      if pol == "reject" then 1.0 else if pol == "quarantine" then 0.6 else if pol == "none" then 0.1 else 0.0;
    var frac := if pol == "none" then 1.0 else Fraction(x.pct);
    20.0 * base * frac
  }

  function Coverage(x: Inputs): real {
    var share := x.days as real / 14.0;
    10.0 * if share <= 1.0 then share else 1.0
  }

  function Unknown(x: Inputs): real {
    if x.msgs30 > 0 && x.unknownFailing > 0
    then 15.0 * Clamp0(1.0 - Ratio(x.unknownFailing, x.msgs30) * 10.0)
    else 15.0
  }

  /** The score the design describes: the exact weighted sum. */
  function Exact(x: Inputs): real {
    Alignment(x) + Trend(x) + Policy(x) + Coverage(x) + Unknown(x)
  }

  function Rounded(x: Inputs): real {
    Round1(Alignment(x)) + Round1(Trend(x)) + Round1(Policy(x)) + Round1(Coverage(x)) + Round1(Unknown(x))
  }

  /** The score the code returns: five roundings to a tenth and one to an int. */
  function Score(x: Inputs): int {
    (Rounded(x) + 0.5).Floor
  }

  function Components(x: Inputs): seq<Component> {
    [Component(AlignmentC, Round1(Alignment(x)), 40.0),
     Component(TrendC, Round1(Trend(x)), 15.0),
     Component(PolicyC, Round1(Policy(x)), 20.0),
     Component(CoverageC, Round1(Coverage(x)), 10.0),
     Component(UnknownSourcesC, Round1(Unknown(x)), 15.0)]
  }

  function Total(comps: seq<Component>, n: nat): real
    requires n <= |comps|
  {
    if n == 0 then 0.0 else Total(comps, n - 1) + comps[n - 1].score
  }

  method ComputeHealth(x: Inputs) returns (score: int, comps: seq<Component>)
    ensures score == Score(x) && comps == Components(x)
    ensures forall i :: 0 <= i < |comps| ==> 0.0 <= comps[i].score
    ensures forall i :: 1 <= i < |comps| ==> comps[i].score <= comps[i].max
    ensures InBounds(x) ==> 0 <= score <= 100 && comps[0].score <= comps[0].max
  {
    var rate30 := Ratio(x.aligned30, x.msgs30);
    var trend := 15.0;
    if x.msgsPrior > 0 && x.msgs30 > 0 {
      var delta := rate30 - Ratio(x.alignedPrior, x.msgsPrior);
      if delta < 0.0 {
        trend := 15.0 * Clamp0(1.0 + delta * 4.0);
      }
    }
    var unknown := 15.0;
    if x.msgs30 > 0 && x.unknownFailing > 0 {
      unknown := 15.0 * Clamp0(1.0 - Ratio(x.unknownFailing, x.msgs30) * 10.0);
    }
    comps := [Component(AlignmentC, Round1(40.0 * rate30), 40.0),
              Component(TrendC, Round1(trend), 15.0),
              Component(PolicyC, Round1(Policy(x)), 20.0),
              Component(CoverageC, Round1(Coverage(x)), 10.0),
              Component(UnknownSourcesC, Round1(unknown), 15.0)];
    var total := 0.0;
    for i := 0 to |comps|
      invariant total == Total(comps, i)
    {
      total := total + comps[i].score;
    }
    assert comps == Components(x);
    TotalIsRounded(x);
    score := (total + 0.5).Floor;
    Bounded(x);
  }

  lemma TotalIsRounded(x: Inputs)
    ensures Total(Components(x), 5) == Rounded(x)
  {
    var c := Components(x);
    assert Total(c, 1) == c[0].score;
    assert Total(c, 2) == Total(c, 1) + c[1].score;
    assert Total(c, 3) == Total(c, 2) + c[2].score;
    assert Total(c, 4) == Total(c, 3) + c[3].score;
  }

  // --- rounding ---

  lemma Round1Mono(v: real, w: real)
    requires v <= w
    ensures Round1(v) <= Round1(w)
  {
    if v >= 0.0 {
      var a, b := (v * 10.0 + 0.5).Floor, (w * 10.0 + 0.5).Floor;
      assert v * 10.0 + 0.5 <= w * 10.0 + 0.5;
      assert a <= b;
    } else if w >= 0.0 {
      assert (w * 10.0 + 0.5).Floor >= 0;
    }
  }

  /** Rounding moves a non-negative value by at most a twentieth. */
  lemma Round1Near(v: real)
    requires 0.0 <= v
    ensures -0.05 < Round1(v) - v <= 0.05
  {
    var t := v * 10.0 + 0.5;
    assert t.Floor as real <= t < t.Floor as real + 1.0;
  }

  /** Rounding never passes a bound that is itself a whole number. */
  lemma Round1Bound(v: real, max: nat)
    requires v <= max as real
    ensures 0.0 <= Round1(v) <= max as real
  {
    Round1Mono(v, max as real);
    assert max as real * 10.0 + 0.5 == (max * 10) as real + 0.5;
    assert ((max * 10) as real + 0.5).Floor == max * 10;
  }

  // --- bounds ---

  lemma DivMono(a: real, b: real, t: real)
    requires t > 0.0 && a <= b
    ensures a / t <= b / t
  {
  }

  lemma RatioMono(a: int, b: int, total: int)
    requires a <= b
    ensures Ratio(a, total) <= Ratio(b, total)
  {
    if total > 0 { DivMono(a as real, b as real, total as real); }
  }

  predicate InBounds(x: Inputs) {
    x.aligned30 <= x.msgs30 || x.msgs30 <= 0
  }

  lemma RestBounded(x: Inputs)
    ensures Trend(x) <= 15.0 && Policy(x) <= 20.0 && Coverage(x) <= 10.0 && Unknown(x) <= 15.0
    ensures 0.0 <= Trend(x) && 0.0 <= Policy(x) && 0.0 <= Unknown(x)
    ensures 0 <= x.days ==> 0.0 <= Coverage(x)
  {
    if x.msgs30 > 0 && x.unknownFailing > 0 {
      RatioMono(0, x.unknownFailing, x.msgs30);
      assert Ratio(0, x.msgs30) == 0.0;
    }
    if x.pct.Some? && 0 <= x.pct.value <= 100 {
      assert 0.0 <= Fraction(x.pct) <= 1.0;
    }
  }

  /** Every component is within [0, max] whatever the inputs, except that
      alignment needs no more aligned than total messages; then the score is
      within [0, 100]. */
  lemma Bounded(x: Inputs)
    ensures var c := Components(x);
      && (forall i :: 0 <= i < 5 ==> 0.0 <= c[i].score)
      && (forall i :: 1 <= i < 5 ==> c[i].score <= c[i].max)
      && (InBounds(x) ==> c[0].score <= c[0].max && 0 <= Score(x) <= 100)
  {
    RestBounded(x);
    Round1Bound(Trend(x), 15);
    Round1Bound(Policy(x), 20);
    Round1Bound(Coverage(x), 10);
    Round1Bound(Unknown(x), 15);
    if InBounds(x) {
      if x.msgs30 > 0 {
        RatioMono(x.aligned30, x.msgs30, x.msgs30);
        assert Ratio(x.msgs30, x.msgs30) == 1.0;
      }
      Round1Bound(Alignment(x), 40);
    }
  }

  lemma DivLess(a: real, b: real, t: real)
    requires t > 0.0
    ensures a / t < b <==> a < b * t
  {
  }

  /** Exactly when the alignment component leaves [0, 40]: rounding forgives an
      excess of less than one message in 800, nothing more. */
  lemma AlignmentBoundedIff(x: Inputs)
    ensures Components(x)[0].score <= 40.0 <==> x.msgs30 <= 0 || 800 * x.aligned30 < 801 * x.msgs30
  {
    var v := Alignment(x);
    if x.msgs30 > 0 {
      var a, t := x.aligned30 as real, x.msgs30 as real;
      DivLess(a, 1.00125, t);
      var u := v * 10.0 + 0.5;
      assert u < 401.0 <==> u.Floor <= 400;
      assert u < 401.0 <==> a / t < 1.00125;
      assert a < 1.00125 * t <==> 800.0 * a < 801.0 * t;
      assert 800.0 * a == (800 * x.aligned30) as real && 801.0 * t == (801 * x.msgs30) as real;
      if v < 0.0 { assert Components(x)[0].score == 0.0; }
    }
  }

  /** The score is the exact weighted sum within three quarters of a point. */
  lemma NearExact(x: Inputs)
    requires 0 <= x.days && (0 <= x.aligned30 || x.msgs30 <= 0)
    ensures -0.75 <= Score(x) as real - Exact(x) <= 0.75
  {
    RestBounded(x);
    if x.msgs30 > 0 {
      RatioMono(0, x.aligned30, x.msgs30);
      assert Ratio(0, x.msgs30) == 0.0;
    }
    Round1Near(Alignment(x));
    Round1Near(Trend(x));
    Round1Near(Policy(x));
    Round1Near(Coverage(x));
    Round1Near(Unknown(x));
    var t := Rounded(x) + 0.5;
    assert t.Floor as real <= t < t.Floor as real + 1.0;
  }

  // --- where the components reach their ends ---

  lemma ClampZeroIff(v: real)
    ensures Clamp0(v) == 0.0 <==> v <= 0.0
  {
  }

  /** Trend is zero exactly from a drop of 25 percentage points on, and full
      exactly without a drop (or without mail in both periods). */
  lemma TrendEnds(x: Inputs)
    ensures var now, before := Ratio(x.aligned30, x.msgs30), Ratio(x.alignedPrior, x.msgsPrior);
      && (Trend(x) == 0.0 <==> x.msgsPrior > 0 && x.msgs30 > 0 && now <= before - 0.25)
      && (Trend(x) == 15.0 <==> x.msgsPrior <= 0 || x.msgs30 <= 0 || before <= now)
  {
  }

  /** Unknown sources zero their component exactly from a tenth of all mail on. */
  lemma UnknownEnds(x: Inputs)
    ensures Unknown(x) == 0.0 <==> x.msgs30 > 0 && x.msgs30 <= 10 * x.unknownFailing
    ensures Unknown(x) == 15.0 <==> x.msgs30 <= 0 || x.unknownFailing <= 0
  {
    if x.msgs30 > 0 && x.unknownFailing > 0 {
      var a, t := x.unknownFailing as real, x.msgs30 as real;
      DivLess(a, 0.1, t);
      DivLess(0.0, a / t, t);
      ClampZeroIff(1.0 - a / t * 10.0);
      assert a < 0.1 * t <==> 10.0 * a < t;
      assert 10.0 * a == (10 * x.unknownFailing) as real;
      assert a / t > 0.0;
    }
  }

  /** Two weeks with data fill coverage; the policies at full pct score 20, 12,
      2 and, if unknown, nothing. */
  lemma CoverageAndPolicyEnds(x: Inputs)
    ensures Coverage(x) == 10.0 <==> 14 <= x.days
    ensures Coverage(x) <= 0.0 <==> x.days <= 0
    ensures Fraction(x.pct) == 1.0 ==>
      Policy(x) == match PolicyOf(x.p) case "reject" => 20.0 case "quarantine" => 12.0 case "none" => 2.0 case _ => 0.0
  {
    DivLess(x.days as real, 1.0, 14.0);
  }

  /** A domain gets the full score, before rounding, exactly when all mail is aligned,
      the aligned rate has not dropped, reject is published for all mail, two weeks
      have data and no unknown source fails. */
  lemma FullMarksIff(x: Inputs)
    requires x.aligned30 <= x.msgs30
    ensures Exact(x) == 100.0 <==>
      && 0 < x.msgs30 && x.aligned30 == x.msgs30
      && (x.msgsPrior <= 0 || Ratio(x.alignedPrior, x.msgsPrior) <= 1.0)
      && PolicyOf(x.p) == "reject" && Fraction(x.pct) == 1.0
      && 14 <= x.days && x.unknownFailing <= 0
  {
    RestBounded(x);
    TrendEnds(x);
    UnknownEnds(x);
    CoverageAndPolicyEnds(x);
    FullAlignmentIff(x);
    FullPolicyIff(x);
  }

  lemma FullAlignmentIff(x: Inputs)
    requires x.aligned30 <= x.msgs30
    ensures Alignment(x) <= 40.0
    ensures Alignment(x) == 40.0 <==> 0 < x.msgs30 && x.aligned30 == x.msgs30
    ensures 0 < x.msgs30 && x.aligned30 == x.msgs30 ==> Ratio(x.aligned30, x.msgs30) == 1.0
  {
    if x.msgs30 > 0 {
      DivLess(x.aligned30 as real, 1.0, x.msgs30 as real);
      RatioMono(x.aligned30, x.msgs30, x.msgs30);
      assert Ratio(x.msgs30, x.msgs30) == 1.0;
    }
  }

  lemma FullPolicyIff(x: Inputs)
    ensures Policy(x) == 20.0 <==> PolicyOf(x.p) == "reject" && Fraction(x.pct) == 1.0
  {
    var f := Fraction(x.pct);
    if x.pct.Some? && 0 <= x.pct.value <= 100 { FractionMono(x.pct.value, 100); }
    assert f <= 1.0;
    var pol := PolicyOf(x.p);
    if pol == "quarantine" { assert Policy(x) == 12.0 * f; }
    if pol == "reject" { assert Policy(x) == 20.0 * f; }
  }

  // --- what each component is worth ---

  /** The five values behind the components, before rounding, from the inputs. */
  ghost predicate Worth(x: Inputs, pts: seq<real>) {
    var now, before := Ratio(x.aligned30, x.msgs30), Ratio(x.alignedPrior, x.msgsPrior);
    var onAll := x.pct.None? || x.pct.value < 0 || x.pct.value > 100;
    && |pts| == 5
    && (if x.msgs30 > 0 then pts[0] * x.msgs30 as real == 40.0 * x.aligned30 as real else pts[0] == 0.0)
    && pts[1] == (if x.msgs30 <= 0 || x.msgsPrior <= 0 || before <= now then 15.0
                  else if before - now >= 0.25 then 0.0 else 15.0 - 60.0 * (before - now))
    && 100.0 * pts[2] == (match x.p
         case Some("reject") => if onAll then 2000.0 else 20.0 * x.pct.value as real
         case Some("quarantine") => if onAll then 1200.0 else 12.0 * x.pct.value as real
         case Some(p) => if p == "" || p == "none" then 200.0 else 0.0
         case None => 200.0)
    && 14.0 * pts[3] == (if x.days >= 14 then 140.0 else 10.0 * x.days as real)
    && (if x.msgs30 <= 0 || x.unknownFailing <= 0 then pts[4] == 15.0
        else if x.msgs30 <= 10 * x.unknownFailing then pts[4] == 0.0
        else pts[4] * x.msgs30 as real == 15.0 * (x.msgs30 - 10 * x.unknownFailing) as real)
  }

  predicate IsTenths(v: real) { (v * 10.0).Floor as real == v * 10.0 }

  /** The rates mean what they say. */
  lemma RatioIs(part: int, total: int)
    ensures if total > 0 then Ratio(part, total) * total as real == part as real else Ratio(part, total) == 0.0
  {
  }

  /** Every component is its worth rounded to the nearest tenth, or nothing if that is
      negative, and the score is their sum rounded to the nearest whole number. */
  lemma ScoreIsWorth(x: Inputs) returns (pts: seq<real>)
    ensures Worth(x, pts)
    ensures forall i :: 0 <= i < 5 ==>
      && Components(x)[i].name == [AlignmentC, TrendC, PolicyC, CoverageC, UnknownSourcesC][i]
      && Components(x)[i].max == [40.0, 15.0, 20.0, 10.0, 15.0][i]
      && IsTenths(Components(x)[i].score)
      && if pts[i] < 0.0 then Components(x)[i].score == 0.0 else -0.05 <= Components(x)[i].score - pts[i] <= 0.05
    ensures var c := Components(x);
      -0.5 < Score(x) as real - (c[0].score + c[1].score + c[2].score + c[3].score + c[4].score) <= 0.5
  {
    pts := [Alignment(x), Trend(x), Policy(x), Coverage(x), Unknown(x)];
    WorthIs(x);
    forall i | 0 <= i < 5
      ensures IsTenths(Components(x)[i].score)
      ensures if pts[i] < 0.0 then Components(x)[i].score == 0.0 else -0.05 <= Components(x)[i].score - pts[i] <= 0.05
    {
      assert Components(x)[i].score == Round1(pts[i]);
      RoundsToTenths(pts[i]);
    }
    var t := Rounded(x) + 0.5;
    assert t.Floor as real <= t < t.Floor as real + 1.0;
    hide Worth, Round1, Alignment, Trend, Policy, Coverage, Unknown, IsTenths;
  }

  lemma RoundsToTenths(v: real)
    ensures IsTenths(Round1(v))
    ensures if v < 0.0 then Round1(v) == 0.0 else -0.05 <= Round1(v) - v <= 0.05
  {
    if v >= 0.0 {
      Round1Near(v);
      var n := (v * 10.0 + 0.5).Floor;
      assert Round1(v) * 10.0 == n as real;
    }
  }

  lemma WorthIs(x: Inputs)
    ensures Worth(x, [Alignment(x), Trend(x), Policy(x), Coverage(x), Unknown(x)])
  {
    RatioIs(x.aligned30, x.msgs30);
    if x.msgs30 > 0 {
      assert 40.0 * Ratio(x.aligned30, x.msgs30) * x.msgs30 as real == 40.0 * x.aligned30 as real;
    }
    PolicyWorth(x);
    CoverageWorth(x);
    UnknownWorth(x);
    hide Policy, Coverage, Unknown, Ratio;
  }

  lemma PolicyWorth(x: Inputs)
    ensures var onAll := x.pct.None? || x.pct.value < 0 || x.pct.value > 100;
      100.0 * Policy(x) == match x.p
         case Some("reject") => if onAll then 2000.0 else 20.0 * x.pct.value as real
         case Some("quarantine") => if onAll then 1200.0 else 12.0 * x.pct.value as real
         case Some(p) => if p == "" || p == "none" then 200.0 else 0.0
         case None => 200.0
  {
    if x.pct.Some? && 0 <= x.pct.value <= 100 { assert 100.0 * Fraction(x.pct) == x.pct.value as real; }
  }

  lemma CoverageWorth(x: Inputs)
    ensures 14.0 * Coverage(x) == if x.days >= 14 then 140.0 else 10.0 * x.days as real
  {
    DivLess(1.0, x.days as real / 14.0, 14.0);
  }

  lemma UnknownWorth(x: Inputs)
    ensures if x.msgs30 <= 0 || x.unknownFailing <= 0 then Unknown(x) == 15.0
      else if x.msgs30 <= 10 * x.unknownFailing then Unknown(x) == 0.0
      else Unknown(x) * x.msgs30 as real == 15.0 * (x.msgs30 - 10 * x.unknownFailing) as real
  {
    UnknownEnds(x);
    if x.msgs30 > 0 && x.unknownFailing > 0 && x.msgs30 > 10 * x.unknownFailing {
      var u, t := x.unknownFailing as real, x.msgs30 as real;
      var share := Ratio(x.unknownFailing, x.msgs30);
      RatioIs(x.unknownFailing, x.msgs30);
      assert share * t == u;
      assert Unknown(x) != 0.0 && Unknown(x) == 15.0 * (1.0 - share * 10.0);
      ScaleShare(share, t, u);
      assert t - 10.0 * u == (x.msgs30 - 10 * x.unknownFailing) as real;
    }
  }

  lemma ScaleShare(share: real, t: real, u: real)
    requires share * t == u
    ensures 15.0 * (1.0 - share * 10.0) * t == 15.0 * (t - 10.0 * u)
  {
    assert (1.0 - share * 10.0) * t == t - 10.0 * (share * t);
  }

  // --- monotonicity ---

  lemma ScoreMono(x: Inputs, y: Inputs)
    requires Alignment(x) <= Alignment(y) && Trend(x) <= Trend(y) && Policy(x) <= Policy(y)
    requires Coverage(x) <= Coverage(y) && Unknown(x) <= Unknown(y)
    ensures Score(x) <= Score(y)
  {
    Round1Mono(Alignment(x), Alignment(y));
    Round1Mono(Trend(x), Trend(y));
    Round1Mono(Policy(x), Policy(y));
    Round1Mono(Coverage(x), Coverage(y));
    Round1Mono(Unknown(x), Unknown(y));
  }

  /** More aligned mail in the last 30 days never lowers the score. */
  lemma MoreAlignedNeverLowers(x: Inputs, aligned: int)
    requires x.aligned30 <= aligned
    ensures Score(x) <= Score(x.(aligned30 := aligned))
  {
    RatioMono(x.aligned30, aligned, x.msgs30);
    ScoreMono(x, x.(aligned30 := aligned));
  }

  lemma MoreDaysNeverLower(x: Inputs, days: int)
    requires x.days <= days
    ensures Score(x) <= Score(x.(days := days))
  {
    DivMono(x.days as real, days as real, 14.0);
    ScoreMono(x, x.(days := days));
  }

  lemma MoreUnknownNeverRaises(x: Inputs, failing: int)
    requires x.unknownFailing <= failing
    ensures Score(x.(unknownFailing := failing)) <= Score(x)
  {
    RatioMono(x.unknownFailing, failing, x.msgs30);
    RestBounded(x.(unknownFailing := failing));
    ScoreMono(x.(unknownFailing := failing), x);
  }

  lemma ScoreReads(x: Inputs, y: Inputs)
    requires x.(p := None, pct := None) == y.(p := None, pct := None) && Policy(x) <= Policy(y)
    ensures Score(x) <= Score(y)
  {
    ScoreMono(x, y);
  }

  lemma FractionMono(pct: int, pct': int)
    requires 0 <= pct <= pct'
    ensures Fraction(Some(pct)) <= Fraction(Some(pct'))
  {
    DivMono(pct as real, pct' as real, 100.0);
    if pct <= 100 { DivMono(pct as real, 100.0, 100.0); }
  }

  /** A larger pct never lowers the score. */
  lemma MorePctNeverLowers(x: Inputs, pct: int, pct': int)
    requires 0 <= pct <= pct'
    ensures Score(x.(pct := Some(pct))) <= Score(x.(pct := Some(pct')))
  {
    FractionMono(pct, pct');
    ScoreReads(x.(pct := Some(pct)), x.(pct := Some(pct')));
  }

  /** A pct outside 0..100 reads as 100: a negative one scores as full enforcement. */
  lemma OddPctReadsAsFull(x: Inputs, pct: int)
    requires pct < 0 || pct > 100
    ensures Score(x.(pct := Some(pct))) == Score(x.(pct := None)) == Score(x.(pct := Some(100)))
  {
    assert Fraction(Some(100)) == 1.0;
    ScoreReads(x.(pct := Some(pct)), x.(pct := None));
    ScoreReads(x.(pct := None), x.(pct := Some(pct)));
    ScoreReads(x.(pct := Some(100)), x.(pct := None));
    ScoreReads(x.(pct := None), x.(pct := Some(100)));
  }

  /** Stronger published policies do not score lower, except that reject at less
      than a tenth (quarantine at less than a sixth) may score below p=none. */
  lemma StrongerPolicyNeverLowers(x: Inputs)
    ensures Score(x.(p := Some("quarantine"))) <= Score(x.(p := Some("reject")))
    ensures Fraction(x.pct) >= 0.1 ==> Score(x.(p := Some("none"))) <= Score(x.(p := Some("reject")))
    ensures Fraction(x.pct) * 6.0 >= 1.0 ==> Score(x.(p := Some("none"))) <= Score(x.(p := Some("quarantine")))
  {
    if x.pct.Some? && x.pct.value >= 0 { FractionMono(0, x.pct.value); }
    ScoreReads(x.(p := Some("quarantine")), x.(p := Some("reject")));
    if Fraction(x.pct) >= 0.1 { ScoreReads(x.(p := Some("none")), x.(p := Some("reject"))); }
    if Fraction(x.pct) * 6.0 >= 1.0 { ScoreReads(x.(p := Some("none")), x.(p := Some("quarantine"))); }
  }

  // --- from the ingest machine to the score ---

  /** A SUM over a set of rows of dmarc_agg_daily. */
  ghost function SumRows(daily: map<Bucket, Counts>, bs: set<Bucket>): Counts {
    if bs == {} then ZERO
    else Plus(SumRows(daily, bs - {Pick(bs)}), At(daily, Pick(bs)))
  }

  function Recent(daily: map<Bucket, Counts>, domain: string, today: int): set<Bucket> {
    set b | b in daily && b.domain == domain && today - 30 <= b.day
  }

  function Prior(daily: map<Bucket, Counts>, domain: string, today: int): set<Bucket> {
    set b | b in daily && b.domain == domain && today - 60 <= b.day < today - 30
  }

  /** DomainHealthInputs; what it reads from other tables is a parameter. */
  ghost function Gather(daily: map<Bucket, Counts>, domain: string, today: int, unknownFailing: int,
      p: Option<string>, pct: Option<int>): Inputs {
    var now, before := SumRows(daily, Recent(daily, domain, today)), SumRows(daily, Prior(daily, domain, today));
    Inputs(now.total, now.aligned, before.total, before.aligned,
           |set b | b in Recent(daily, domain, today) && At(daily, b).total > 0|, unknownFailing, p, pct)
  }

  lemma PlusMoves(a: Counts, x: Counts, y: Counts)
    ensures Plus(Plus(a, x), y) == Plus(Plus(a, y), x)
  {
  }

  /** The order of the rows does not matter. */
  lemma {:induction false} SumRowsInsert(daily: map<Bucket, Counts>, bs: set<Bucket>, b: Bucket)
    requires b !in bs
    ensures SumRows(daily, bs + {b}) == Plus(SumRows(daily, bs), At(daily, b))
    decreases |bs|
  {
    var all := bs + {b};
    var x := Pick(all);
    if x == b {
      assert all - {x} == bs;
    } else {
      var rest := bs - {x};
      assert all - {x} == rest + {b} && rest + {x} == bs;
      SumRowsInsert(daily, rest, b);
      SumRowsInsert(daily, rest, x);
      PlusMoves(SumRows(daily, rest), At(daily, x), At(daily, b));
      SumRowsOpens(daily, all);
      hide SumRows, Plus;
    }
  }

  lemma SumRowsOpens(daily: map<Bucket, Counts>, bs: set<Bucket>)
    requires bs != {}
    ensures SumRows(daily, bs) == Plus(SumRows(daily, bs - {Pick(bs)}), At(daily, Pick(bs)))
  {
  }

  lemma {:induction false} SumRowsSame(daily: map<Bucket, Counts>, daily': map<Bucket, Counts>, bs: set<Bucket>)
    requires forall b :: b in bs ==> At(daily, b) == At(daily', b)
    ensures SumRows(daily, bs) == SumRows(daily', bs)
    decreases |bs|
  {
    if bs == {} {
    } else {
      SumRowsSame(daily, daily', bs - {Pick(bs)});
    }
  }

  /** A row more in a window, or not. */
  lemma WindowGrows(daily: map<Bucket, Counts>, b: Bucket, c: Counts, old': set<Bucket>, new': set<Bucket>)
    requires b !in daily && old' <= daily.Keys && (new' == old' || new' == old' + {b})
    ensures SumRows(daily[b := c], new') == if b in new' then Plus(SumRows(daily, old'), c) else SumRows(daily, old')
  {
    var daily' := daily[b := c];
    assert forall k :: k in old' ==> At(daily, k) == At(daily', k);
    SumRowsSame(daily, daily', old');
    if b in new' { SumRowsInsert(daily', old', b); }
  }

  /** What one row of dmarc_agg_daily contributes to the inputs of the score: its messages
      to the last 30 days or to the 30 before, by its day and only for its domain, and a
      day with data if it is recent and has any. */
  lemma RowCounts(daily: map<Bucket, Counts>, b: Bucket, c: Counts, domain: string, today: int, unknownFailing: int,
      p: Option<string>, pct: Option<int>)
    requires b !in daily
    ensures Gather(map[], domain, today, unknownFailing, p, pct) == Inputs(0, 0, 0, 0, 0, unknownFailing, p, pct)
    ensures
      var x := Gather(daily, domain, today, unknownFailing, p, pct);
      var y := Gather(daily[b := c], domain, today, unknownFailing, p, pct);
      var recent := b.domain == domain && b.day >= today - 30;
      var prior := b.domain == domain && today - 60 <= b.day < today - 30;
      && y.msgs30 == x.msgs30 + (if recent then c.total else 0)
      && y.aligned30 == x.aligned30 + (if recent then c.aligned else 0)
      && y.msgsPrior == x.msgsPrior + (if prior then c.total else 0)
      && y.alignedPrior == x.alignedPrior + (if prior then c.aligned else 0)
      && y.days == x.days + (if recent && c.total > 0 then 1 else 0)
      && y.unknownFailing == unknownFailing && y.p == p && y.pct == pct
  {
    var daily' := daily[b := c];
    var r, r' := Recent(daily, domain, today), Recent(daily', domain, today);
    var q, q' := Prior(daily, domain, today), Prior(daily', domain, today);
    WindowsGrow(daily, b, c, domain, today);
    NoRows(domain, today);
    hide Recent, Prior, SumRows, At;
    WindowGrows(daily, b, c, r, r');
    WindowGrows(daily, b, c, q, q');
    DaysGrow(daily, b, c, r, r');
  }

  lemma WindowsGrow(daily: map<Bucket, Counts>, b: Bucket, c: Counts, domain: string, today: int)
    requires b !in daily
    ensures b !in Recent(daily, domain, today) && b !in Prior(daily, domain, today)
    ensures Recent(daily, domain, today) <= daily.Keys && Prior(daily, domain, today) <= daily.Keys
    ensures Recent(daily[b := c], domain, today)
      == Recent(daily, domain, today) + if b.domain == domain && b.day >= today - 30 then {b} else {}
    ensures Prior(daily[b := c], domain, today)
      == Prior(daily, domain, today) + if b.domain == domain && today - 60 <= b.day < today - 30 then {b} else {}
  {
  }

  lemma NoRows(domain: string, today: int)
    ensures Recent(map[], domain, today) == {} && Prior(map[], domain, today) == {}
    ensures (set b | b in Recent(map[], domain, today) && At(map[], b).total > 0) == {}
    ensures SumRows(map[], {}) == ZERO
  {
  }

  lemma DaysGrow(daily: map<Bucket, Counts>, b: Bucket, c: Counts, r: set<Bucket>, r': set<Bucket>)
    requires b !in daily && r <= daily.Keys && (r' == r || r' == r + {b})
    ensures |set k | k in r' && At(daily[b := c], k).total > 0|
        == |set k | k in r && At(daily, k).total > 0| + if b in r' && c.total > 0 then 1 else 0
  {
    var d, d' := set k | k in r && At(daily, k).total > 0, set k | k in r' && At(daily[b := c], k).total > 0;
    assert At(daily[b := c], b) == c && forall k :: k in r ==> At(daily[b := c], k) == At(daily, k);
    hide At;
    assert d' == if b in r' && c.total > 0 then d + {b} else d;
  }

  lemma {:induction false} WindowSound(daily: map<Bucket, Counts>, bs: set<Bucket>)
    requires forall b :: Sound(At(daily, b))
    ensures Sound(SumRows(daily, bs))
  {
    if bs == {} {
    } else {
      WindowSound(daily, bs - {Pick(bs)});
    }
  }

  /** End to end: in every reachable state of the ingest machine, whatever was
      retried, lost in a crash or counted twice by a live rebuild, every domain
      scores within [0, 100], each component within its maximum and the score
      within 0.75 of the exact sum, provided no report carries a negative count. */
  lemma ReachableScoreBounded(s: State, domain: string, today: int, unknownFailing: int, p: Option<string>,
      pct: Option<int>)
    requires Reachable(s)
    requires forall i :: 0 <= i < |s.db.reports| ==> NonNegative(s.db.reports[i].report)
    ensures var x := Gather(s.db.daily, domain, today, unknownFailing, p, pct);
      && 0 <= Score(x) <= 100
      && (forall i :: 0 <= i < 5 ==> 0.0 <= Components(x)[i].score <= Components(x)[i].max)
      && -0.75 <= Score(x) as real - Exact(x) <= 0.75
  {
    var daily := s.db.daily;
    forall b ensures Sound(At(daily, b)) { BucketsSound(s, b); }
    WindowSound(daily, Recent(daily, domain, today));
    var x := Gather(daily, domain, today, unknownFailing, p, pct);
    Bounded(x);
    NearExact(x);
  }

  // --- when the score can leave its range ---

  /** The inputs that get the most out of a given alignment. */
  function AtBest(x: Inputs): Inputs {
    Inputs(x.msgs30, x.aligned30, 0, 0, 14, 0, Some("reject"), None)
  }

  lemma BestIsSixtyMore(x: Inputs)
    ensures Rounded(AtBest(x)) == Round1(Alignment(x)) + 60.0
  {
    var y := AtBest(x);
    assert Trend(y) == 15.0 && Policy(y) == 20.0 && Coverage(y) == 10.0 && Unknown(y) == 15.0;
    assert Round1(15.0) == 15.0 && Round1(20.0) == 20.0 && Round1(10.0) == 10.0;
  }

  lemma BestIsBest(x: Inputs)
    ensures Score(x) <= Score(AtBest(x))
  {
    var y := AtBest(x);
    RestBounded(x);
    assert Trend(y) == 15.0 && Policy(y) == 20.0 && Coverage(y) == 10.0 && Unknown(y) == 15.0;
    ScoreMono(x, y);
  }

  /** Round1 stays below 40.5 exactly while the value is below 40.45. */
  lemma Round1Below(v: real)
    ensures Round1(v) < 40.5 <==> v < 40.45
  {
    var u := v * 10.0 + 0.5;
    assert u < 405.0 <==> u.Floor <= 404;
  }

  lemma AlignmentBelow(x: Inputs)
    requires x.msgs30 > 0
    ensures Alignment(x) < 40.45 <==> 800 * x.aligned30 < 809 * x.msgs30
  {
    var a, t := x.aligned30 as real, x.msgs30 as real;
    DivLess(a, 1.01125, t);
    assert a < 1.01125 * t <==> 800.0 * a < 809.0 * t;
    assert 800.0 * a == (800 * x.aligned30) as real && 809.0 * t == (809 * x.msgs30) as real;
  }

  /** Exactly when no inputs with these message counts score above 100: the aligned
      messages exceed the total by less than nine in 800, or there is no mail. */
  lemma ScoreBoundedIff(x: Inputs)
    ensures (forall y: Inputs :: y.msgs30 == x.msgs30 && y.aligned30 == x.aligned30 ==> 0 <= Score(y) <= 100)
        <==> x.msgs30 <= 0 || 800 * x.aligned30 < 809 * x.msgs30
  {
    BestIsSixtyMore(x);
    Round1Below(Alignment(x));
    if x.msgs30 > 0 { AlignmentBelow(x); }
    assert Score(AtBest(x)) <= 100 <==> Round1(Alignment(x)) < 40.5;
    forall y: Inputs | y.msgs30 == x.msgs30 && y.aligned30 == x.aligned30
      ensures 0 <= Score(y) && Score(y) <= Score(AtBest(x)) {
      Bounded(y);
      NeverNegative(y);
      BestIsBest(y);
      assert AtBest(y) == AtBest(x);
    }
  }

  lemma NeverNegative(x: Inputs)
    ensures 0 <= Score(x)
  {
    assert Round1(Alignment(x)) >= 0.0 && Round1(Trend(x)) >= 0.0 && Round1(Policy(x)) >= 0.0;
    assert Round1(Coverage(x)) >= 0.0 && Round1(Unknown(x)) >= 0.0;
  }

  /** A report nothing on the way in rejects: ten aligned messages and minus nine
      others. */
  function Odd(): Report {
    Report(Key("d", "r"), 0, 0,
      [Record(None, None, 10, None, Fail, Pass, []), Record(None, None, -9, None, Fail, Fail, [])])
  }

  lemma OddCounts()
    ensures Contribution(Odd()).total == 1 && Contribution(Odd()).aligned == 10
  {
    var recs := Odd().records;
    var one := recs[..1];
    assert one == [recs[0]] && one[..0] == [];
    assert SumIf(one, Every) == 10 && SumIf(one, Aligned) == 10;
    assert SumIf(recs, Every) == SumIf(one, Every) + -9;
    assert SumIf(recs, Aligned) == SumIf(one, Aligned);
  }

  /** The state after it was saved and its observers ran. */
  function OddState(): State { Do(JustSaved(Odd()), Work(Api(0), Ok(1))) }

  lemma OddDaily()
    ensures Reachable(OddState()) && OddState().db.daily == map[BucketOf(Odd()) := Contribution(Odd())]
  {
    var s := JustSaved(Odd());
    JustSavedIsReachable(Odd());
    ReachableStep(s, Work(Api(0), Ok(1)));
    assert s.tasks[Api(0)].emitting == Some(0);
    assert OddState() == Settle(s, Api(0), s.tasks[Api(0)], 0, true);
    PlusZero(Contribution(Odd()));
  }

  lemma OneRow(b: Bucket, c: Counts, bs: set<Bucket>)
    requires bs <= {b}
    ensures SumRows(map[b := c], bs) == if b in bs then c else ZERO
  {
    if bs != {} {
      assert bs == {b} && bs - {Pick(bs)} == {};
      PlusZero(c);
    }
  }

  /** The proviso of ReachableScoreBounded is needed: that state scores its domain
      above 100. */
  lemma NegativeCountBreaksBound()
    ensures Reachable(OddState())
    ensures Score(Gather(OddState().db.daily, "d", 0, 0, None, None)) > 100
  {
    var daily, b, c := OddState().db.daily, BucketOf(Odd()), Contribution(Odd());
    OddDaily();
    OddCounts();
    hide OddState;
    assert b == Bucket(0, "d");
    assert Recent(daily, "d", 0) == {b} && Prior(daily, "d", 0) == {};
    OneRow(b, c, {b});
    OneRow(b, c, {});
    var x := Gather(daily, "d", 0, 0, None, None);
    assert x.msgs30 == 1 && x.aligned30 == 10;
    OddScore(x);
  }

  lemma OddScore(x: Inputs)
    requires x.msgs30 == 1 && x.aligned30 == 10
    ensures Score(x) > 100
  {
    assert Ratio(10, 1) == 10.0;
    assert Alignment(x) == 400.0;
    assert Round1(400.0) == 400.0;
    Bounded(x);
    NeverNegative(x);
    assert Round1(Trend(x)) >= 0.0 && Round1(Policy(x)) >= 0.0 && Round1(Coverage(x)) >= 0.0
      && Round1(Unknown(x)) >= 0.0;
  }
}
