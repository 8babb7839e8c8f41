/** Recipient redaction of a header block (parser/internal/forensic): a line
    scanner that follows folded continuations, and the rewrite of every address
    localpart on the lines it selects. Text is a sequence of characters. */
module Redaction {
  import opened Text

  // --- the rewrite of one line: [^\s<>,;:"@]+@ becomes redacted@ ---

  predicate IsLocal(c: char) {
    && c != '\t' && c != '\n' && c != FORM_FEED && c != '\r' && c != ' '
    && c != '<' && c != '>' && c != ',' && c != ';' && c != ':' && c != '"' && c != '@'
  }

  /** Length of the longest prefix of localpart characters. */
  function RunLen(s: string): (n: nat)
    ensures n <= |s| && forall k :: 0 <= k < n ==> IsLocal(s[k])
    ensures n < |s| ==> !IsLocal(s[n])
  {
    if s == "" || !IsLocal(s[0]) then 0 else 1 + RunLen(s[1..])
  }

  predicate RunMeetsAt(s: string) {
    var n := RunLen(s);
    0 < n < |s| && s[n] == '@'
  }

  /** The text a single step of the scan consumes: one match, one run that is no
      match, or one other character. */
  function HeadLen(s: string): (h: nat)
    requires s != ""
    ensures 0 < h <= |s|
  {
    var n := RunLen(s);
    if n == 0 then 1 else if RunMeetsAt(s) then n + 1 else n
  }

  function HeadOut(s: string): string
    requires s != ""
  {
    if RunMeetsAt(s) then "redacted@" else s[..HeadLen(s)]
  }

  /** Leftmost matches, each as long as possible, replaced from left to right. */
  function Redact(s: string): string
    decreases |s|
  {
    if s == "" then "" else HeadOut(s) + Redact(s[HeadLen(s)..])
  }

  /** Every '@' that follows a localpart character has exactly "redacted" as the
      whole run before it. */
  ghost predicate Clean(t: string) {
    forall p :: 0 < p < |t| && t[p] == '@' && IsLocal(t[p - 1]) ==> Masked(t, p)
  }

  predicate Masked(t: string, p: nat)
    requires p < |t|
  {
    8 <= p && t[p - 8..p] == "redacted" && (p == 8 || !IsLocal(t[p - 9]))
  }

  /** a may be put before t without touching what t says about itself. */
  predicate Boundary(a: string, t: string) {
    a == "" || t == "" || !IsLocal(a[|a| - 1]) || (!IsLocal(t[0]) && t[0] != '@')
  }

  lemma CleanPrepend(a: string, t: string)
    requires Clean(a) && Clean(t) && Boundary(a, t)
    ensures Clean(a + t)
  {
    var s := a + t;
    forall p | 0 < p < |s| && s[p] == '@' && IsLocal(s[p - 1]) ensures Masked(s, p) {
      if p < |a| {
        assert a[p] == '@' && IsLocal(a[p - 1]) && Masked(a, p);
        assert s[p - 8..p] == a[p - 8..p];
      } else {
        MaskedBehind(a, t, p - |a|);
      }
    }
  }

  lemma MaskedBehind(a: string, t: string, q: nat)
    requires Clean(t) && Boundary(a, t) && q < |t| && t[q] == '@'
    requires if q > 0 then IsLocal(t[q - 1]) else a == "" || IsLocal(a[|a| - 1])
    requires q + |a| > 0
    ensures Masked(a + t, q + |a|)
  {
    assert q > 0 && Masked(t, q);
    assert t[q - 8] == t[q - 8..q][0] == 'r';
    assert (a + t)[|a| + q - 8..|a| + q] == t[q - 8..q];
  }

  lemma RedactedIsLocal(i: nat)
    requires i < 8
    ensures IsLocal("redacted"[i])
  {
    var w := "redacted";
    assert w[0] == 'r' && w[1] == 'e' && w[2] == 'd' && w[3] == 'a' && w[4] == 'c' && w[5] == 't' && w[6] == 'e'
      && w[7] == 'd';
  }

  lemma MaskedRun(t: string, p: nat)
    requires p < |t| && Masked(t, p)
    ensures forall j :: p - 8 <= j < p ==> IsLocal(t[j])
  {
    forall j | p - 8 <= j < p ensures IsLocal(t[j]) {
      assert t[j] == t[p - 8..p][j - (p - 8)];
      RedactedIsLocal(j - (p - 8));
    }
  }

  lemma CleanSuffix(t: string, k: nat)
    requires Clean(t) && k <= |t| && (k == 0 || k == |t| || !IsLocal(t[k - 1]) || !IsLocal(t[k]))
    ensures Clean(t[k..])
  {
    var u := t[k..];
    forall p | 0 < p < |u| && u[p] == '@' && IsLocal(u[p - 1]) ensures Masked(u, p) {
      MaskedSuffix(t, k, p);
    }
  }

  lemma RunAvoids(t: string, p: nat, j: nat)
    requires p < |t| && Masked(t, p) && j < |t| && !IsLocal(t[j])
    ensures j < p - 8 || p <= j
  {
    MaskedRun(t, p);
  }

  lemma MaskedSuffix(t: string, k: nat, p: nat)
    requires p + k < |t| && Masked(t, p + k) && 0 < p && (k == 0 || !IsLocal(t[k - 1]) || !IsLocal(t[k]))
    ensures Masked(t[k..], p)
  {
    if k > 0 { RunAvoids(t, p + k, if IsLocal(t[k]) then k - 1 else k); }
    assert t[k..][p - 8..p] == t[p + k - 8..p + k];
  }

  lemma RedactHead(s: string)
    requires s != "" && !IsLocal(s[0])
    ensures Redact(s) == [s[0]] + Redact(s[1..])
  {
    assert s[..1] == [s[0]];
  }

  lemma HeadBoundary(s: string)
    requires s != ""
    ensures Boundary(s[..HeadLen(s)], s[HeadLen(s)..])
    ensures Boundary(HeadOut(s), Redact(s[HeadLen(s)..]))
  {
    var rest := s[HeadLen(s)..];
    LastOfHead(s);
    hide RunMeetsAt, HeadLen, HeadOut;
    if rest != "" && !IsLocal(rest[0]) { RedactHead(rest); }
  }

  /** A head ends in a character no localpart contains, or is followed by one that
      is neither that nor an '@'. */
  lemma LastOfHead(s: string)
    requires s != ""
    ensures var h, o := HeadLen(s), HeadOut(s);
      && o != "" && o[|o| - 1] == s[h - 1]
      && (!IsLocal(s[h - 1]) || h == |s| || (!IsLocal(s[h]) && s[h] != '@'))
  {
  }

  /** After the rewrite no localpart is left in front of an '@'. */
  lemma {:induction false} RedactCleans(s: string)
    ensures Clean(Redact(s))
    decreases |s|
  {
    if s == "" {
    } else {
      HeadBoundary(s);
      RedactCleans(s[HeadLen(s)..]);
      CleanPrepend(HeadOut(s), Redact(s[HeadLen(s)..]));
    }
  }

  /** Clean text is left alone. */
  lemma {:induction false} CleanIsFixed(t: string)
    requires Clean(t)
    ensures Redact(t) == t
    decreases |t|
  {
    if t == "" {
    } else {
      var h := HeadLen(t);
      CleanHead(t);
      HeadBoundary(t);
      CleanSuffix(t, h);
      var head, rest := t[..h], t[h..];
      assert t == head + rest;
      RedactUnfold(t);
      hide *;
      CleanIsFixed(rest);
    }
  }

  lemma CleanHead(t: string)
    requires t != "" && Clean(t)
    ensures HeadOut(t) == t[..HeadLen(t)]
  {
    if RunMeetsAt(t) {
      var h := HeadLen(t);
      assert IsLocal(t[h - 2]) && Masked(t, h - 1);
      assert h == 9;
      assert t[..9] == t[..8] + [t[8]] && "redacted@" == "redacted" + "@";
    }
  }

  /** A line is unchanged exactly when it is already clean; so a second pass
      changes nothing. */
  lemma FixedIffClean(t: string)
    ensures Redact(t) == t <==> Clean(t)
    ensures Redact(Redact(t)) == Redact(t)
  {
    RedactCleans(t);
    CleanIsFixed(Redact(t));
    if Clean(t) { CleanIsFixed(t); }
  }

  // --- what the rewrite keeps ---

  /** The text without the runs that end at an '@'. */
  function Skeleton(s: string): string {
    if s == "" then ""
    else if RunMeetsAt(s) then Skeleton(s[1..])
    else [s[0]] + Skeleton(s[1..])
  }

  /** The scan of a text is not affected by what follows a boundary. */
  lemma {:induction false} RunLenCut(a: string, t: string)
    requires a != "" && Boundary(a, t)
    ensures RunLen(a + t) == RunLen(a) && RunMeetsAt(a + t) == RunMeetsAt(a)
  {
    RunLenIs(a + t, RunLen(a));
    var n := RunLen(a);
    assert n < |a| ==> (a + t)[n] == a[n];
  }

  lemma {:induction false} RunLenIs(s: string, n: nat)
    requires n <= |s| && (forall k :: 0 <= k < n ==> IsLocal(s[k])) && (n < |s| ==> !IsLocal(s[n]))
    ensures RunLen(s) == n
  {
    if n == 0 {
    } else {
      RunLenIs(s[1..], n - 1);
    }
  }

  lemma {:induction false} SkeletonCut(a: string, t: string)
    requires Boundary(a, t)
    ensures Skeleton(a + t) == Skeleton(a) + Skeleton(t)
  {
    if a == "" {
      assert a + t == t;
    } else {
      RunLenCut(a, t);
      assert (a + t)[1..] == a[1..] + t;
      SkeletonCut(a[1..], t);
    }
  }

  lemma {:induction false} SkeletonOfMatch(a: string)
    requires forall k :: 0 <= k < |a| ==> IsLocal(a[k])
    ensures Skeleton(a + "@") == "@"
  {
    RunLenIs(a + "@", |a|);
    if a != "" {
      assert (a + "@")[1..] == a[1..] + "@";
      SkeletonOfMatch(a[1..]);
    } else {
      assert a + "@" == "@";
    }
  }

  lemma SkeletonOfHead(s: string)
    requires s != ""
    ensures Skeleton(HeadOut(s)) == Skeleton(s[..HeadLen(s)])
  {
    var h := HeadLen(s);
    if RunMeetsAt(s) {
      assert s[..h] == s[..h - 1] + "@" && "redacted@" == "redacted" + "@";
      SkeletonOfMatch(s[..h - 1]);
      SkeletonOfMatch("redacted");
    }
  }

  /** Everything outside the replaced runs stays, in order: separators, names,
      every '@' and every domain. */
  lemma {:induction false} RedactKeepsSkeleton(s: string)
    ensures Skeleton(Redact(s)) == Skeleton(s)
    decreases |s|
  {
    if s == "" {
    } else {
      var head, rest := s[..HeadLen(s)], s[HeadLen(s)..];
      assert s == head + rest;
      assert Redact(s) == HeadOut(s) + Redact(rest);
      hide *;
      HeadBoundary(s);
      RedactKeepsSkeleton(rest);
      SkeletonOfHead(s);
      SkeletonCut(HeadOut(s), Redact(rest));
      SkeletonCut(head, rest);
    }
  }

  // --- the lines of a block ---

  function HeaderName(line: string): string {
    Lower(Trim(line[..IndexOf(line, ':')]))
  }

  const RECIPIENT_HEADERS: set<string> := {
    "to", "cc", "bcc", "delivered-to", "x-original-to", "original-rcpt-to", "resent-to"
  }

  predicate IsRecipientHeader(line: string) {
    IndexOf(line, ':') < |line| && HeaderName(line) in RECIPIENT_HEADERS
  }

  /** A continuation of the header above (section 2.2.3 of RFC 5322). */
  predicate Folded(line: string) {
    line != "" && (line[0] == ' ' || line[0] == '\t')
  }

  /** Line i belongs to a recipient header: the nearest line at or above it that
      starts a header names one. */
  predicate Governed(lines: seq<string>, i: nat)
    requires i < |lines|
  {
    if !Folded(lines[i]) then IsRecipientHeader(lines[i])
    else i > 0 && Governed(lines, i - 1)
  }

  function RedactLines(lines: seq<string>): (out: seq<string>)
    ensures |out| == |lines|
  {
    seq(|lines|, i requires 0 <= i < |lines| => if Governed(lines, i) then Redact(lines[i]) else lines[i])
  }

  function RedactBlock(block: string): string {
    Join(RedactLines(Split(block, '\n')), '\n')
  }

  method RedactRecipients(block: string) returns (out: string)
    ensures out == RedactBlock(block)
  {
    var parts := Split(block, '\n');
    var lines := new string[|parts|](i requires 0 <= i < |parts| => parts[i]);
    assert lines[..] == parts;
    RedactInPlace(lines);
    out := Join(lines[..], '\n');
  }

  method RedactInPlace(lines: array<string>)
    modifies lines
    ensures lines[..] == RedactLines(old(lines[..]))
  {
    ghost var parts, done := lines[..], RedactLines(lines[..]);
    hide Redact, IsRecipientHeader, Governed, RedactLines, IsLocal;
    var inRecipient := false;
    for i := 0 to lines.Length
      invariant inRecipient <==> i > 0 && Governed(parts, i - 1)
      invariant forall k :: 0 <= k < i ==> lines[k] == done[k]
      invariant forall k :: i <= k < lines.Length ==> lines[k] == parts[k]
    {
      var line := lines[i];
      LineStep(parts, i);
      if !(|line| > 0 && (line[0] == ' ' || line[0] == '\t')) {
        inRecipient := IsRecipientHeader(line);
      }
      if inRecipient {
        lines[i] := Redact(line);
      }
    }
    assert |done| == lines.Length && forall k :: 0 <= k < |done| ==> lines[..][k] == done[k];
  }

  lemma LineStep(parts: seq<string>, i: nat)
    requires i < |parts|
    ensures Governed(parts, i)
      <==> if Folded(parts[i]) then i > 0 && Governed(parts, i - 1) else IsRecipientHeader(parts[i])
    ensures RedactLines(parts)[i] == if Governed(parts, i) then Redact(parts[i]) else parts[i]
  {
  }

  lemma {:induction false} TrimKeepsAt(s: string)
    ensures '@' in s ==> '@' in TrimLeft(s)
    ensures '@' in s ==> '@' in TrimRight(s)
    decreases |s|
  {
    if s == "" {
    } else {
      TrimKeepsAt(s[1..]);
      TrimKeepsAt(s[..|s| - 1]);
    }
  }

  lemma NoAtInName(line: string)
    requires IsRecipientHeader(line)
    ensures '@' !in line[..IndexOf(line, ':')]
  {
    var name := line[..IndexOf(line, ':')];
    if '@' in name {
      TrimKeepsAt(name);
      TrimKeepsAt(TrimLeft(name));
      var t := TrimRight(TrimLeft(name));
      var k :| 0 <= k < |t| && t[k] == '@';
      assert Lower(t)[k] == '@';
      NoRecipientHeaderHasAt(Lower(t));
      assert false;
    }
  }

  lemma NoRecipientHeaderHasAt(h: string)
    requires h in RECIPIENT_HEADERS
    ensures '@' !in h
  {
    assert '@' !in "to" && '@' !in "cc" && '@' !in "bcc" && '@' !in "delivered-to";
    assert '@' !in "x-original-to" && '@' !in "original-rcpt-to" && '@' !in "resent-to";
  }

  /** The rewrite works piecewise. */
  lemma {:induction false} RedactCut(a: string, t: string)
    requires Boundary(a, t)
    ensures Redact(a + t) == Redact(a) + Redact(t)
    decreases |a|
  {
    hide Redact, HeadOut, RunMeetsAt;
    if a == "" {
      RedactCutNone(a, t);
    } else {
      var rest := a[HeadLen(a)..];
      HeadCut(a, t);
      RedactCut(rest, t);
      RedactCutStep(a, t, rest);
    }
  }

  lemma RedactNothing()
    ensures Redact("") == ""
  {
  }

  lemma RedactCutNone(a: string, t: string)
    requires a == ""
    ensures Redact(a + t) == Redact(a) + Redact(t)
  {
    hide *;
    RedactNothing();
    assert a + t == t;
    assert "" + Redact(t) == Redact(t);
  }

  lemma RedactCutStep(a: string, t: string, rest: string)
    requires a != "" && Boundary(a, t) && rest == a[HeadLen(a)..] && Redact(rest + t) == Redact(rest) + Redact(t)
    ensures Redact(a + t) == Redact(a) + Redact(t)
  {
    HeadCut(a, t);
    RedactUnfold(a);
    RedactUnfold(a + t);
    Associates(HeadOut(a), Redact(rest), Redact(t));
    hide *;
  }

  lemma RedactUnfold(s: string)
    requires s != ""
    ensures Redact(s) == HeadOut(s) + Redact(s[HeadLen(s)..])
  {
  }

  lemma HeadCut(a: string, t: string)
    requires a != "" && Boundary(a, t)
    ensures var h := HeadLen(a);
      && HeadLen(a + t) == h && HeadOut(a + t) == HeadOut(a) && (a + t)[h..] == a[h..] + t && Boundary(a[h..], t)
  {
    RunLenCut(a, t);
    var h := HeadLen(a);
    assert (a + t)[h..] == a[h..] + t && (a + t)[..h] == a[..h];
  }

  lemma Associates(x: string, y: string, z: string)
    ensures x + (y + z) == x + y + z
  {
  }

  /** Text without '@' up to a separator is passed over. */
  lemma RedactPasses(a: string, t: string)
    requires '@' !in a && t != "" && !IsLocal(t[0]) && t[0] != '@'
    ensures Redact(a + t) == a + Redact(t)
  {
    RedactCut(a, t);
    CleanIsFixed(a);
  }

  /** The header line is still the same header after the rewrite. */
  lemma RedactKeepsHeader(line: string)
    requires IsRecipientHeader(line)
    ensures IsRecipientHeader(Redact(line))
  {
    var c := IndexOf(line, ':');
    var name, rest := line[..c], line[c..];
    NoAtInName(line);
    assert line == name + rest;
    RedactPasses(name, rest);
    RedactHead(rest);
    assert Redact(line)[..c] == name;
    IndexOfUnique(Redact(line), ':', c);
  }

  lemma RedactKeepsFolding(line: string)
    ensures Folded(line) ==> Folded(Redact(line))
    ensures !Folded(line) && IsRecipientHeader(line) ==> !Folded(Redact(line))
  {
    if Folded(line) { RedactHead(line); }
    if !Folded(line) && IsRecipientHeader(line) {
      var c := IndexOf(line, ':');
      NoAtInName(line);
      assert line == line[..c] + line[c..];
      RedactPasses(line[..c], line[c..]);
      RedactHead(line[c..]);
      assert Redact(line)[0] == line[0];
    }
  }

  lemma {:induction false} RedactKeepsGoverned(lines: seq<string>, i: nat)
    requires i < |lines|
    ensures Governed(RedactLines(lines), i) <==> Governed(lines, i)
  {
    RedactKeepsFolding(lines[i]);
    if Folded(lines[i]) {
      if i > 0 { RedactKeepsGoverned(lines, i - 1); }
    } else if Governed(lines, i) {
      RedactKeepsHeader(lines[i]);
    }
  }

  lemma {:induction false} RedactAddsNoNewline(s: string)
    requires '\n' !in s
    ensures '\n' !in Redact(s)
    decreases |s|
  {
    if s == "" {
    } else {
      RedactAddsNoNewline(s[HeadLen(s)..]);
    }
  }

  lemma BlockLines(block: string)
    ensures Split(RedactBlock(block), '\n') == RedactLines(Split(block, '\n'))
  {
    var lines := Split(block, '\n');
    forall l | l in RedactLines(lines) ensures '\n' !in l {
      var i :| 0 <= i < |lines| && RedactLines(lines)[i] == l;
      assert lines[i] in lines;
      RedactAddsNoNewline(lines[i]);
    }
    SplitJoin(RedactLines(lines), '\n');
  }

  /** The whole block: as many lines as before; every line outside recipient
      headers byte for byte; on the lines of recipient headers, folded ones
      included, no localpart left before an '@' and nothing else changed. */
  lemma BlockRedaction(block: string, i: nat)
    requires i < |Split(block, '\n')|
    ensures |Split(RedactBlock(block), '\n')| == |Split(block, '\n')|
    ensures var line, line' := Split(block, '\n')[i], Split(RedactBlock(block), '\n')[i];
      if Governed(Split(block, '\n'), i) then Clean(line') && Skeleton(line') == Skeleton(line) else line' == line
  {
    BlockLines(block);
    RedactCleans(Split(block, '\n')[i]);
    RedactKeepsSkeleton(Split(block, '\n')[i]);
  }

  /** A block without recipient headers is returned byte for byte. */
  lemma NoRecipientsUnchanged(block: string)
    requires forall i :: 0 <= i < |Split(block, '\n')| ==> !Governed(Split(block, '\n'), i)
    ensures RedactBlock(block) == block
  {
    var lines := Split(block, '\n');
    assert RedactLines(lines) == lines;
    JoinSplit(block, '\n');
  }

  /** Redacting a redacted block changes nothing. */
  lemma BlockIdempotent(block: string)
    ensures RedactBlock(RedactBlock(block)) == RedactBlock(block)
  {
    BlockLines(block);
    var lines := Split(block, '\n');
    var once := RedactLines(lines);
    forall i | 0 <= i < |lines| ensures RedactLines(once)[i] == once[i] {
      RedactKeepsGoverned(lines, i);
      FixedIffClean(lines[i]);
    }
    assert RedactLines(once) == once;
  }
}
