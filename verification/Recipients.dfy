/** Which lines of a header block the redaction takes for recipient headers, told
    from the text of the block alone. */
module Recipients {
  import opened Text
  import opened Redaction

  /** name is the header name in any mixture of capital and small letters. */
  predicate Spells(name: string, header: string) {
    && |name| == |header|
    && forall k :: 0 <= k < |name| ==>
        name[k] == header[k] || (97 <= header[k] as int <= 122 && name[k] as int + 32 == header[k] as int)
  }

  predicate Reads(line: string, lead: string, name: string, trail: string, rest: string, header: string) {
    line == lead + name + trail + ":" + rest && Blanks(lead) && Blanks(trail) && Spells(name, header)
  }

  ghost predicate Named(line: string, header: string) {
    exists lead, name, trail, rest :: Reads(line, lead, name, trail, rest, header)
  }

  ghost predicate NamesRecipient(line: string) {
    || Named(line, "to") || Named(line, "cc") || Named(line, "bcc") || Named(line, "delivered-to")
    || Named(line, "x-original-to") || Named(line, "original-rcpt-to") || Named(line, "resent-to")
  }

  predicate Continues(line: string) { line != "" && (line[0] as int == 32 || line[0] as int == 9) }

  /** Line h starts a recipient header, and all lines from there to i continue it. */
  ghost predicate Heads(lines: seq<string>, h: nat, i: nat) {
    && h <= i < |lines| && !Continues(lines[h]) && NamesRecipient(lines[h])
    && forall k :: h < k <= i ==> Continues(lines[k])
  }

  /** A character that can be part of a localpart: no white space, quote, bracket or
      separator. */
  predicate LocalChar(c: char) {
    c as int !in {9, 10, 12, 13, 32} && c !in "<>,;:\"@"
  }

  /** In front of every '@' that follows such a character stands "redacted", as a
      whole run of them. */
  ghost predicate AtsMasked(t: string) {
    forall p :: 0 < p < |t| && t[p] == '@' && LocalChar(t[p - 1]) ==>
      8 <= p && t[p - 8..p] == "redacted" && (p == 8 || !LocalChar(t[p - 9]))
  }

  // --- one line ---

  lemma LocalIff(c: char)
    ensures IsLocal(c) <==> LocalChar(c)
  {
    assert c in "<>,;:\"@" <==> c == '<' || c == '>' || c == ',' || c == ';' || c == ':' || c == '"' || c == '@';
  }

  lemma CleanMeans(t: string)
    ensures Clean(t) <==> AtsMasked(t)
  {
    forall c ensures IsLocal(c) <==> LocalChar(c) { LocalIff(c); }
    hide IsLocal, LocalChar;
    if Clean(t) {
      forall p | 0 < p < |t| && t[p] == '@' && LocalChar(t[p - 1])
        ensures 8 <= p && t[p - 8..p] == "redacted" && (p == 8 || !LocalChar(t[p - 9])) {
        assert Masked(t, p);
      }
    }
  }

  /** The seven names consist of small letters and hyphens. */
  predicate Plain(header: string) {
    header != "" && forall k :: 0 <= k < |header| ==> 97 <= header[k] as int <= 122 || header[k] == '-'
  }

  lemma SevenNames(header: string)
    requires header in RECIPIENT_HEADERS
    ensures Plain(header)
  {
    assert Plain("to") && Plain("cc") && Plain("bcc") && Plain("delivered-to");
    assert Plain("x-original-to") && Plain("original-rcpt-to") && Plain("resent-to");
  }

  lemma SpelledName(name: string, header: string)
    requires Plain(header)
    ensures Spells(name, header) <==> Lower(name) == header
  {
    LowerIff(name, header);
  }

  /** The header a line starts is the one its name spells. */
  lemma NamedIff(line: string, header: string)
    requires Plain(header)
    ensures Named(line, header) <==> IndexOf(line, ':') < |line| && HeaderName(line) == header
  {
    hide Reads, HeaderName, Plain;
    if Named(line, header) {
      var lead, name, trail, rest :| Reads(line, lead, name, trail, rest, header);
      NameEnds(line, lead, name, trail, rest, header);
    }
    if IndexOf(line, ':') < |line| && HeaderName(line) == header { NameBegins(line, header); }
  }

  lemma NameBegins(line: string, header: string)
    requires Plain(header) && IndexOf(line, ':') < |line| && HeaderName(line) == header
    ensures Named(line, header)
  {
    var c := IndexOf(line, ':');
    var core := Trim(line[..c]);
    TrimIff(line[..c], core);
    SpelledName(core, header);
    hide Trim, Lower, Blanks, Spells, Plain;
    var lead, trail :| Blanks(lead) && Blanks(trail) && line[..c] == lead + core + trail;
    CutAt(line, c);
    assert Reads(line, lead, core, trail, line[c + 1..], header);
  }

  lemma NameEnds(line: string, lead: string, name: string, trail: string, rest: string, header: string)
    requires Plain(header) && Reads(line, lead, name, trail, rest, header)
    ensures IndexOf(line, ':') < |line| && HeaderName(line) == header
  {
    var field := lead + name + trail;
    forall k | 0 <= k < |name| ensures name[k] != ':' && !Blank(name[k]) {
      assert name[k] == header[k] || name[k] as int + 32 == header[k] as int;
    }
    assert line[..|field|] == field;
    assert ':' !in lead && ':' !in name && ':' !in trail;
    IndexOfUnique(line, ':', |field|);
    assert TrimsTo(field, name);
    TrimIff(field, name);
    SpelledName(name, header);
  }

  lemma RecipientIff(line: string)
    ensures IsRecipientHeader(line) <==> NamesRecipient(line)
  {
    SevenNames("to");
    SevenNames("cc");
    SevenNames("bcc");
    SevenNames("delivered-to");
    SevenNames("x-original-to");
    SevenNames("original-rcpt-to");
    SevenNames("resent-to");
    NamedIff(line, "to");
    NamedIff(line, "cc");
    NamedIff(line, "bcc");
    NamedIff(line, "delivered-to");
    NamedIff(line, "x-original-to");
    NamedIff(line, "original-rcpt-to");
    NamedIff(line, "resent-to");
    hide Named, Plain, HeaderName;
  }

  // --- the block ---

  lemma {:induction false} GovernedIff(lines: seq<string>, i: nat)
    requires i < |lines|
    ensures Governed(lines, i) <==> exists h :: Heads(lines, h, i)
  {
    RecipientIff(lines[i]);
    hide NamesRecipient, IsRecipientHeader;
    if !Folded(lines[i]) {
      if exists h :: Heads(lines, h, i) {
        var h :| Heads(lines, h, i);
        assert h == i;
      }
      if Governed(lines, i) { assert Heads(lines, i, i); }
    } else {
      if i > 0 { GovernedIff(lines, i - 1); }
      if Governed(lines, i) {
        var h :| Heads(lines, h, i - 1);
        assert Heads(lines, h, i);
      }
      if exists h :: Heads(lines, h, i) {
        var h :| Heads(lines, h, i);
        assert Heads(lines, h, i - 1);
      }
    }
  }

  /** Line by line, for every block: under a header whose name is one of the seven, in
      any capitals and with any blanks around it, every '@' after a localpart character
      is masked and the text outside the replaced runs is kept; every other line comes
      out as it went in. */
  lemma RedactedIff(block: string, i: nat)
    requires i < |Split(block, '\n')|
    ensures |Split(RedactBlock(block), '\n')| == |Split(block, '\n')|
    ensures var lines, line' := Split(block, '\n'), Split(RedactBlock(block), '\n')[i];
      if exists h :: Heads(lines, h, i)
      then AtsMasked(line') && Skeleton(line') == Skeleton(lines[i])
      else line' == lines[i]
  {
    BlockRedaction(block, i);
    GovernedIff(Split(block, '\n'), i);
    CleanMeans(Split(RedactBlock(block), '\n')[i]);
    hide *;
  }

  ghost predicate OneLine(s: string) { '\n' !in s }

  /** Every spelling of a recipient header: anything may stand above and below, the
      name may be written in any capitals between any blanks that do not fold the
      line, and may have any continuations. All its lines come out masked. */
  lemma EverySpelling(above: seq<string>, lead: string, name: string, trail: string, rest: string, folds: seq<string>,
      below: seq<string>, header: string)
    requires header
        in {"to", "cc", "bcc", "delivered-to", "x-original-to", "original-rcpt-to", "resent-to"}
    requires Spells(name, header) && Blanks(lead) && Blanks(trail) && !Continues(lead)
    requires OneLine(lead) && OneLine(trail) && OneLine(rest)
    requires forall l :: l in above + folds + below ==> OneLine(l)
    requires forall k :: 0 <= k < |folds| ==> Continues(folds[k])
    ensures var lines := above + [lead + name + trail + ":" + rest] + folds + below;
            var out := Split(RedactBlock(Join(lines, '\n')), '\n');
      |out| == |lines| && forall i :: |above| <= i <= |above| + |folds| ==> AtsMasked(out[i])
  {
    var line := lead + name + trail + ":" + rest;
    var lines := above + [line] + folds + below;
    SevenNames(header);
    SpelledIsLine(lead, name, trail, rest, header);
    forall l | l in lines ensures '\n' !in l { assert l == line || l in above + folds + below; }
    SplitJoin(lines, '\n');
    RedactedIff(Join(lines, '\n'), |above|);
    assert Named(line, header);
    forall i | |above| <= i <= |above| + |folds|
      ensures AtsMasked(Split(RedactBlock(Join(lines, '\n')), '\n')[i]) {
      assert lines[|above|] == line;
      forall k | |above| < k <= i ensures Continues(lines[k]) { assert lines[k] == folds[k - |above| - 1]; }
      assert Heads(lines, |above|, i);
      RedactedIff(Join(lines, '\n'), i);
    }
  }

  lemma SpelledIsLine(lead: string, name: string, trail: string, rest: string, header: string)
    requires Plain(header) && Spells(name, header) && Blanks(lead) && Blanks(trail) && !Continues(lead)
    requires OneLine(lead) && OneLine(trail) && OneLine(rest)
    ensures var line := lead + name + trail + ":" + rest;
      OneLine(line) && !Continues(line) && Reads(line, lead, name, trail, rest, header)
  {
    var line := lead + name + trail + ":" + rest;
    assert name[0] == header[0] || name[0] as int + 32 == header[0] as int;
    assert line[0] == if lead == "" then name[0] else lead[0];
    forall k | 0 <= k < |name| ensures name[k] != '\n' {
      assert name[k] == header[k] || name[k] as int + 32 == header[k] as int;
    }
  }
}
