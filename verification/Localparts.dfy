/** Which addresses of a line the redaction covers. The text of an address before
    its '@' is everything since the last delimiter outside quotes, white space at its
    start left aside: words, quoted words, and what stands between them (section
    3.4.1 of RFC 5322). Comments in parentheses are ordinary characters. */
module Localparts {
  import opened Text
  import opened Redaction

  // --- where an address begins ---

  predicate IsDelimiter(c: char) {
    c == '<' || c == '>' || c == ',' || c == ';' || c == ':' || c == '@'
  }

  predicate IsBlank(c: char) { !IsLocal(c) && !IsDelimiter(c) && c != '"' }

  /** Outside a quoted string, inside one, or behind a backslash inside one. */
  datatype Quoting = Outside | Inside | Escaped

  function Quote(q: Quoting, c: char): Quoting {
    match q
    case Outside => if c == '"' then Inside else Outside
    case Inside => if c == '"' then Outside else if c == '\\' then Escaped else Inside
    case Escaped => Inside
  }

  /** Whether position p of the line is quoted. */
  function QuotingAt(s: string, p: nat): Quoting
    requires p <= |s|
  {
    if p == 0 then Outside else Quote(QuotingAt(s, p - 1), s[p - 1])
  }

  predicate Delimits(s: string, i: nat)
    requires i < |s|
  {
    IsDelimiter(s[i]) && QuotingAt(s, i) == Outside
  }

  /** The position after the last delimiter before p. */
  function Start(s: string, p: nat): (b: nat)
    requires p <= |s|
    ensures b <= p && (b == 0 || Delimits(s, b - 1)) && forall i :: b <= i < p ==> !Delimits(s, i)
  {
    if p == 0 || Delimits(s, p - 1) then p else Start(s, p - 1)
  }

  /** The text without the blanks it starts with. */
  function Unindent(t: string): (r: string)
    ensures |r| <= |t| && r == t[|t| - |r|..] && (r != "" ==> !IsBlank(r[0]))
    ensures forall i :: 0 <= i < |t| - |r| ==> IsBlank(t[i])
  {
    if t != "" && IsBlank(t[0]) then Unindent(t[1..]) else t
  }

  /** What the address with its '@' at p has before it. */
  function Localpart(s: string, p: nat): string
    requires p <= |s|
  {
    Unindent(s[Start(s, p)..p])
  }

  /** An '@' that separates a localpart from a domain. */
  predicate Separates(s: string, p: nat) {
    p < |s| && s[p] == '@' && QuotingAt(s, p) == Outside
  }

  predicate IsRun(t: string) {
    t != "" && forall i :: 0 <= i < |t| ==> IsLocal(t[i])
  }

  // --- what is promised, and when ---

  /** Nothing of any localpart is left but the word "redacted". */
  ghost predicate AllMasked(t: string) {
    forall p: nat :: Separates(t, p) ==> Localpart(t, p) == "redacted"
  }

  /** Every localpart is one unbroken run of unquoted characters. */
  ghost predicate AllRuns(s: string) {
    forall p: nat :: Separates(s, p) ==> IsRun(Localpart(s, p))
  }

  // --- the same, read from left to right ---

  /** What has been seen since the last delimiter: blanks only, one run after them,
      or more than that. */
  datatype Seen = Nothing | OneRun | More

  datatype Context = Context(quoting: Quoting, seen: Seen)

  const START := Context(Outside, Nothing)

  function Next(x: Context, c: char): Context {
    var seen :=
      if x.quoting != Outside || c == '"' then More
      else if IsDelimiter(c) then Nothing
      else if IsBlank(c) then (if x.seen == Nothing then Nothing else More)
      else if x.seen == More then More else OneRun;
    Context(Quote(x.quoting, c), seen)
  }

  function Fold(x: Context, s: string): Context
    decreases |s|
  {
    if s == "" then x else Fold(Next(x, s[0]), s[1..])
  }

  /** Every '@' outside quotes comes right after one run. */
  predicate AllOk(x: Context, s: string)
    decreases |s|
  {
    s == "" || ((s[0] == '@' && x.quoting == Outside ==> x.seen == OneRun) && AllOk(Next(x, s[0]), s[1..]))
  }

  lemma {:induction false} FoldCut(x: Context, a: string, t: string)
    ensures Fold(x, a + t) == Fold(Fold(x, a), t)
    ensures AllOk(x, a + t) <==> AllOk(x, a) && AllOk(Fold(x, a), t)
    decreases |a|
  {
    if a == "" {
      assert a + t == t;
    } else {
      assert (a + t)[1..] == a[1..] + t;
      FoldCut(Next(x, a[0]), a[1..], t);
    }
  }

  /** A run of localpart characters: all that matters of it is that it is one. */
  lemma {:induction false} FoldRun(x: Context, run: string)
    requires IsRun(run)
    ensures AllOk(x, run)
    ensures x.quoting == Outside ==> Fold(x, run) == Context(Outside, if x.seen == More then More else OneRun)
    ensures x.quoting != Outside ==> Fold(x, run).quoting != Outside && Fold(x, run).seen == More
    decreases |run|
  {
    var y := Next(x, run[0]);
    if |run| == 1 {
      assert run[1..] == "";
      assert Fold(y, "") == y;
    } else {
      FoldRun(y, run[1..]);
    }
  }

  lemma FoldMatch(x: Context, run: string)
    requires IsRun(run)
    ensures AllOk(x, run + "@") <==> (x.quoting == Outside ==> x.seen != More)
    ensures Fold(x, run + "@") == if x.quoting == Outside then Context(Outside, Nothing) else Context(Inside, More)
  {
    FoldCut(x, run, "@");
    FoldRun(x, run);
    assert "@"[1..] == "";
  }

  lemma RedactedIsRun()
    ensures IsRun("redacted")
  {
    forall i | 0 <= i < 8 ensures IsLocal("redacted"[i]) { RedactedIsLocal(i); }
  }

  lemma HeadOk(x: Context, s: string)
    requires s != ""
    ensures Fold(x, HeadOut(s)) == Fold(x, s[..HeadLen(s)])
    ensures AllOk(x, HeadOut(s)) <==> AllOk(x, s[..HeadLen(s)])
  {
    if RunMeetsAt(s) {
      var run := s[..HeadLen(s) - 1];
      assert s[..HeadLen(s)] == run + "@" && "redacted@" == "redacted" + "@";
      RedactedIsRun();
      FoldMatch(x, run);
      FoldMatch(x, "redacted");
    }
  }

  /** The rewrite changes nothing for a reader who only asks for runs. */
  lemma {:induction false} RedactKeepsOk(x: Context, s: string)
    ensures AllOk(x, Redact(s)) <==> AllOk(x, s)
    decreases |s|
  {
    if s == "" {
    } else {
      var head, rest := s[..HeadLen(s)], s[HeadLen(s)..];
      assert s == head + rest;
      RedactUnfold(s);
      HeadOk(x, s);
      RedactKeepsOk(Fold(x, head), rest);
      FoldCut(x, head, rest);
      FoldCut(x, HeadOut(s), Redact(rest));
    }
  }

  // --- the two readings agree ---

  lemma FoldSnoc(s: string, p: nat)
    requires p < |s|
    ensures Fold(START, s[..p + 1]) == Next(Fold(START, s[..p]), s[p])
  {
    assert s[..p + 1] == s[..p] + [s[p]];
    FoldCut(START, s[..p], [s[p]]);
    assert [s[p]][1..] == "";
    assert Fold(Next(Fold(START, s[..p]), s[p]), "") == Next(Fold(START, s[..p]), s[p]);
  }

  lemma UnindentSnoc(t: string, c: char)
    ensures Unindent(t + [c]) == if Unindent(t) == "" && IsBlank(c) then "" else Unindent(t) + [c]
  {
    var r := Unindent(t);
    UnindentIs(t + [c], |t| - |r| + if r == "" && IsBlank(c) then 1 else 0);
  }

  lemma {:induction false} UnindentIs(t: string, k: nat)
    requires k <= |t| && (forall i :: 0 <= i < k ==> IsBlank(t[i])) && (k < |t| ==> !IsBlank(t[k]))
    ensures Unindent(t) == t[k..]
  {
    if k == 0 {
    } else {
      UnindentIs(t[1..], k - 1);
    }
  }

  /** What the reader knows at p. */
  ghost predicate Knows(s: string, p: nat)
    requires p <= |s|
  {
    var x := Fold(START, s[..p]);
    && x.quoting == QuotingAt(s, p)
    && (x.seen == Nothing <==> Localpart(s, p) == "")
    && (x.seen == OneRun <==> IsRun(Localpart(s, p)))
    && (x.quoting != Outside ==> x.seen == More)
  }

  lemma LocalpartSnoc(s: string, p: nat)
    requires p < |s|
    ensures var t := Localpart(s, p);
      Localpart(s, p + 1) == if Delimits(s, p) || (t == "" && IsBlank(s[p])) then "" else t + [s[p]]
  {
    if Delimits(s, p) {
      assert s[p + 1..p + 1] == "";
    } else {
      var b := Start(s, p);
      assert s[b..p + 1] == s[b..p] + [s[p]];
      UnindentSnoc(s[b..p], s[p]);
    }
  }

  /** One character further. */
  lemma NextKnows(x: Context, c: char, t: string, t': string)
    requires x.quoting != Outside ==> x.seen == More
    requires (x.seen == Nothing <==> t == "") && (x.seen == OneRun <==> IsRun(t))
    requires t' == if (IsDelimiter(c) && x.quoting == Outside) || (t == "" && IsBlank(c)) then "" else t + [c]
    ensures var y := Next(x, c);
      && (y.seen == Nothing <==> t' == "") && (y.seen == OneRun <==> IsRun(t'))
      && (y.quoting != Outside ==> y.seen == More)
  {
    RunSnoc(t, c);
    hide IsRun;
    assert IsRun(t) ==> t != "" by { RunIsNotEmpty(t); }
    RunIsNotEmpty(t');
  }

  lemma RunIsNotEmpty(t: string)
    ensures IsRun(t) ==> t != ""
  {
  }

  lemma KnowsNext(s: string, p: nat)
    requires p < |s| && Knows(s, p)
    ensures Knows(s, p + 1)
  {
    FoldSnoc(s, p);
    LocalpartSnoc(s, p);
    NextKnows(Fold(START, s[..p]), s[p], Localpart(s, p), Localpart(s, p + 1));
    hide Localpart, Fold, IsRun;
  }

  lemma KnowsNothing(s: string)
    ensures Knows(s, 0)
  {
    assert s[..0] == "" == s[0..0];
  }

  lemma {:induction false} ReaderKnows(s: string, p: nat)
    requires p <= |s|
    ensures Knows(s, p)
  {
    hide Knows;
    if p == 0 {
      KnowsNothing(s);
    } else {
      ReaderKnows(s, p - 1);
      KnowsNext(s, p - 1);
    }
  }

  lemma RunSnoc(t: string, c: char)
    ensures IsRun(t + [c]) <==> (t == "" || IsRun(t)) && IsLocal(c)
  {
    var u := t + [c];
    assert u[|t|] == c && forall i :: 0 <= i < |t| ==> u[i] == t[i];
  }

  lemma OkSnoc(s: string, n: nat)
    requires n < |s|
    ensures AllOk(START, s[..n + 1]) <==> AllOk(START, s[..n]) && (Separates(s, n) ==> IsRun(Localpart(s, n)))
  {
    var x, c := Fold(START, s[..n]), s[n];
    assert s[..n + 1] == s[..n] + [c];
    FoldCut(START, s[..n], [c]);
    ReaderKnows(s, n);
    hide Fold, Localpart, IsRun;
    assert [c][1..] == "";
    assert AllOk(x, [c]) <==> (c == '@' && x.quoting == Outside ==> x.seen == OneRun);
  }

  ghost predicate RunsBefore(s: string, n: nat)
    requires n <= |s|
  {
    forall p: nat :: p < n && Separates(s, p) ==> IsRun(Localpart(s, p))
  }

  lemma RunsBeforeSnoc(s: string, n: nat)
    requires n < |s|
    ensures RunsBefore(s, n + 1) <==> RunsBefore(s, n) && (Separates(s, n) ==> IsRun(Localpart(s, n)))
  {
    hide Localpart, IsRun, Separates;
  }

  lemma OkNone(s: string)
    ensures AllOk(START, s[..0]) && RunsBefore(s, 0)
  {
    assert s[..0] == "";
  }

  lemma {:induction false} OkIff(s: string, n: nat)
    requires n <= |s|
    ensures AllOk(START, s[..n]) <==> RunsBefore(s, n)
  {
    hide *;
    if n == 0 {
      OkNone(s);
    } else {
      OkIff(s, n - 1);
      OkSnoc(s, n - 1);
      RunsBeforeSnoc(s, n - 1);
    }
  }

  lemma RunsIff(s: string)
    ensures AllRuns(s) <==> AllOk(START, s)
  {
    OkIff(s, |s|);
    assert s[..|s|] == s;
  }

  /** Where a localpart begins in the line, and what stands before it. */
  lemma LocalpartAt(t: string, p: nat) returns (k: nat)
    requires p <= |t| && Localpart(t, p) != ""
    ensures k < p && Localpart(t, p) == t[k..p]
    ensures k == 0 || IsBlank(t[k - 1]) || IsDelimiter(t[k - 1])
  {
    hide Unindent, Start, IsBlank, IsDelimiter, QuotingAt;
    var b := Start(t, p);
    var seg := t[b..p];
    var r := Unindent(seg);
    k := p - |r|;
    assert seg[|seg| - |r|..] == t[k..p];
    if k > b { assert seg[k - 1 - b] == t[k - 1]; }
  }

  /** In clean text a localpart that is a run is the word "redacted". */
  lemma CleanRunIsMask(t: string, p: nat)
    requires Clean(t) && Separates(t, p) && IsRun(Localpart(t, p))
    ensures Localpart(t, p) == "redacted"
  {
    var k := LocalpartAt(t, p);
    hide Localpart;
    RunIsMask(t, k, p);
  }

  lemma RunIsMask(t: string, k: nat, p: nat)
    requires Clean(t) && k < p < |t| && t[p] == '@' && IsRun(t[k..p]) && (k == 0 || !IsLocal(t[k - 1]))
    ensures t[k..p] == "redacted"
  {
    var r := t[k..p];
    assert t[p - 1] == r[p - 1 - k] && IsLocal(t[p - 1]);
    assert Masked(t, p);
    forall i | k <= i < p ensures IsLocal(t[i]) { assert t[i] == r[i - k]; }
    if k > p - 8 { RunAvoids(t, p, k - 1); }
  }

  /** The rewrite is documented to replace every address localpart. It does so
      exactly on lines whose localparts are unbroken runs: no quoted word, no white
      space and nothing empty before an '@'. */
  lemma EveryLocalpartMaskedIff(s: string)
    ensures AllMasked(Redact(s)) <==> AllRuns(s)
  {
    var t := Redact(s);
    RedactCleans(s);
    RedactKeepsOk(START, s);
    RunsIff(s);
    RunsIff(t);
    RedactedIsRun();
    if AllRuns(t) {
      forall p: nat | Separates(t, p) ensures Localpart(t, p) == "redacted" { CleanRunIsMask(t, p); }
    }
  }

  // --- lines it fails on ---

  /** A quoted localpart: the line is stored as it came. */
  lemma QuotedLocalpartSurvives()
    ensures Redact("To: \"a b\"@x") == "To: \"a b\"@x"
  {
    var t := "To: \"a b\"@x";
    assert Clean(t) by {
      assert t[9] == '@' && t[8] == '"';
      assert forall p :: 0 <= p < |t| && p != 9 ==> t[p] != '@';
    }
    CleanIsFixed(t);
  }

  /** A run, its '@' and the rest. */
  lemma MatchThen(run: string, rest: string)
    requires IsRun(run)
    ensures Redact(run + "@" + rest) == "redacted@" + Redact(rest)
  {
    var s := run + "@" + rest;
    assert s[|run|] == '@';
    RunLenIs(s, |run|);
    assert s[|run| + 1..] == rest;
  }

  function Quoted(word: string): string { ['"'] + word + ['"'] }

  lemma {:induction false} FoldWord(word: string)
    requires '"' !in word && '\\' !in word
    ensures Fold(Context(Inside, More), word + ['"']) == Context(Outside, More)
    decreases |word|
  {
    var x, t := Context(Inside, More), word + ['"'];
    if word == "" {
      assert t[1..] == "";
    } else {
      assert t[1..] == word[1..] + ['"'];
      assert Next(x, t[0]) == x;
      FoldWord(word[1..]);
    }
  }

  lemma FoldQuoted(word: string)
    requires '"' !in word && '\\' !in word
    ensures Fold(START, Quoted(word)) == Context(Outside, More)
  {
    FoldWord(word);
    var q := Quoted(word);
    assert q[0] == '"' && q[1..] == word + ['"'];
  }

  /** A quoted word before the run, as in "john".doe@x: only the run is replaced,
      the word survives. */
  lemma QuotedWordSurvives(word: string, run: string, rest: string)
    requires '"' !in word && '\\' !in word && '@' !in word && IsRun(run)
    ensures var line := Quoted(word) + (run + "@" + rest);
      && Redact(line) == Quoted(word) + ("redacted@" + Redact(rest))
      && !AllMasked(Redact(line))
  {
    var q, line := Quoted(word), Quoted(word) + (run + "@" + rest);
    CleanIsFixed(q);
    RedactCut(q, run + "@" + rest);
    MatchThen(run, rest);
    NotAllRuns(word, run, rest);
    EveryLocalpartMaskedIff(line);
  }

  lemma NotAllRuns(word: string, run: string, rest: string)
    requires '"' !in word && '\\' !in word && IsRun(run)
    ensures !AllRuns(Quoted(word) + (run + "@" + rest))
  {
    var q := Quoted(word);
    FoldQuoted(word);
    FoldCut(START, q, run + "@" + rest);
    FoldCut(Context(Outside, More), run + "@", rest);
    FoldMatch(Context(Outside, More), run);
    RunsIff(q + (run + "@" + rest));
  }
}
