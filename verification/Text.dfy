/** Splitting and joining on a separator, trimming and lower-casing ASCII text, and
    decimal octets. */
module Text {
  import opened Reports

  /** Where sep first occurs in s, |s| if nowhere. */
  function IndexOf(s: string, sep: char): (i: nat)
    ensures i <= |s|
    ensures forall k :: 0 <= k < i ==> s[k] != sep
    ensures i < |s| ==> s[i] == sep
  {
    if s == [] || s[0] == sep then 0 else 1 + IndexOf(s[1..], sep)
  }

  /** strings.Split with a one-character separator: never empty. */
  function Split(s: string, sep: char): (parts: seq<string>)
    ensures parts != []
    ensures forall p :: p in parts ==> sep !in p
    decreases |s|
  {
    var i := IndexOf(s, sep);
    if i == |s| then [s] else [s[..i]] + Split(s[i + 1..], sep)
  }

  function Join(parts: seq<string>, sep: char): string {
    if parts == [] then ""
    else if |parts| == 1 then parts[0]
    else parts[0] + [sep] + Join(parts[1..], sep)
  }

  lemma {:induction false} IndexOfUnique(s: string, sep: char, i: nat)
    requires i <= |s| && sep !in s[..i] && (i < |s| ==> s[i] == sep)
    ensures IndexOf(s, sep) == i
  {
    if i == 0 {
    } else {
      assert s[0] == s[..i][0];
      assert s[1..][..i - 1] == s[..i][1..];
      IndexOfUnique(s[1..], sep, i - 1);
    }
  }

  lemma {:induction false} SplitJoin(parts: seq<string>, sep: char)
    requires parts != [] && forall p :: p in parts ==> sep !in p
    ensures Split(Join(parts, sep), sep) == parts
  {
    var s := Join(parts, sep);
    if |parts| == 1 {
      assert s[..|s|] == s;
      IndexOfUnique(s, sep, |s|);
    } else {
      var n := |parts[0]|;
      assert s[..n] == parts[0] && s[n + 1..] == Join(parts[1..], sep);
      IndexOfUnique(s, sep, n);
      SplitJoin(parts[1..], sep);
    }
  }

  lemma JoinMore(first: string, rest: seq<string>, sep: char)
    requires rest != []
    ensures Join([first] + rest, sep) == first + [sep] + Join(rest, sep)
  {
    assert ([first] + rest)[1..] == rest;
  }

  lemma {:induction false} JoinSplit(s: string, sep: char)
    ensures Join(Split(s, sep), sep) == s
    decreases |s|
  {
    var i := IndexOf(s, sep);
    if i < |s| {
      JoinSplit(s[i + 1..], sep);
      JoinMore(s[..i], Split(s[i + 1..], sep), sep);
      CutAt(s, i);
    }
  }

  lemma CutAt(s: string, i: nat)
    requires i < |s|
    ensures s == s[..i] + [s[i]] + s[i + 1..]
  {
  }

  // --- ASCII text ---

  const FORM_FEED: char := '\U{0C}'
  const VERTICAL_TAB: char := '\U{0B}'

  predicate IsSpace(c: char) {
    c == '\t' || c == '\n' || c == VERTICAL_TAB || c == FORM_FEED || c == '\r' || c == ' '
  }

  function Lower(s: string): (r: string)
    ensures |r| == |s| && forall k :: 0 <= k < |s| && s[k] == '@' ==> r[k] == '@'
  {
    seq(|s|, k requires 0 <= k < |s| => if 'A' <= s[k] <= 'Z' then s[k] - 'A' + 'a' else s[k])
  }

  function TrimLeft(s: string): string {
    if s != "" && IsSpace(s[0]) then TrimLeft(s[1..]) else s
  }

  function TrimRight(s: string): string {
    if s != "" && IsSpace(s[|s| - 1]) then TrimRight(s[..|s| - 1]) else s
  }

  /** strings.TrimSpace. */
  function Trim(s: string): string { TrimRight(TrimLeft(s)) }

  /** ASCII white space by its codes. */
  predicate Blank(c: char) { c as int in {9, 10, 11, 12, 13, 32} }

  predicate Blanks(s: string) { forall k :: 0 <= k < |s| ==> Blank(s[k]) }

  /** s is core with blanks around it, and core has none at its ends. */
  ghost predicate TrimsTo(s: string, core: string) {
    && (core == "" || (!Blank(core[0]) && !Blank(core[|core| - 1])))
    && exists lead, trail :: Blanks(lead) && Blanks(trail) && s == lead + core + trail
  }

  lemma {:induction false} LeftPart(s: string) returns (lead: string)
    ensures s == lead + TrimLeft(s) && Blanks(lead) && (TrimLeft(s) == "" || !Blank(TrimLeft(s)[0]))
  {
    if s != "" && IsSpace(s[0]) {
      var more := LeftPart(s[1..]);
      lead := [s[0]] + more;
    } else {
      lead := "";
    }
  }

  lemma {:induction false} RightPart(s: string) returns (trail: string)
    ensures s == TrimRight(s) + trail && Blanks(trail)
    ensures TrimRight(s) == "" || !Blank(TrimRight(s)[|TrimRight(s)| - 1])
  {
    if s != "" && IsSpace(s[|s| - 1]) {
      var more := RightPart(s[..|s| - 1]);
      trail := more + [s[|s| - 1]];
    } else {
      trail := "";
    }
  }

  lemma {:induction false} LeftOf(lead: string, rest: string)
    requires Blanks(lead) && (rest == "" || !Blank(rest[0]))
    ensures TrimLeft(lead + rest) == rest
  {
    if lead == "" {
      assert lead + rest == rest;
    } else {
      assert (lead + rest)[1..] == lead[1..] + rest;
      LeftOf(lead[1..], rest);
    }
  }

  lemma {:induction false} RightOf(rest: string, trail: string)
    requires Blanks(trail) && (rest == "" || !Blank(rest[|rest| - 1]))
    ensures TrimRight(rest + trail) == rest
  {
    if trail == "" {
      assert rest + trail == rest;
    } else {
      var n := |trail| - 1;
      assert (rest + trail)[..|rest + trail| - 1] == rest + trail[..n];
      RightOf(rest, trail[..n]);
    }
  }

  /** Trimming gives what stands between the blanks. */
  lemma TrimIff(s: string, core: string)
    ensures Trim(s) == core <==> TrimsTo(s, core)
  {
    TrimIsBetween(s);
    if TrimsTo(s, core) {
      var lead, trail :| Blanks(lead) && Blanks(trail) && s == lead + core + trail;
      TrimOf(lead, core, trail);
    }
  }

  lemma TrimIsBetween(s: string)
    ensures TrimsTo(s, Trim(s))
  {
    var lead := LeftPart(s);
    var trail := RightPart(TrimLeft(s));
    hide TrimLeft, TrimRight, Blank;
    assert s == lead + Trim(s) + trail;
    if Trim(s) != "" { assert TrimLeft(s)[0] == Trim(s)[0]; }
  }

  lemma TrimOf(lead: string, core: string, trail: string)
    requires Blanks(lead) && Blanks(trail) && (core == "" || (!Blank(core[0]) && !Blank(core[|core| - 1])))
    ensures Trim(lead + core + trail) == core
  {
    hide TrimLeft, Blank;
    if core == "" {
      var s := lead + trail;
      assert lead + core + trail == s + "";
      LeftOf(s, "");
    } else {
      assert lead + core + trail == lead + (core + trail);
      LeftOf(lead, core + trail);
      RightOf(core, trail);
    }
  }

  /** r is s with its capital letters, and nothing else, turned into small ones. */
  predicate LowersTo(s: string, r: string) {
    && |r| == |s|
    && forall k :: 0 <= k < |s| ==> r[k] as int == s[k] as int + if 65 <= s[k] as int <= 90 then 32 else 0
  }

  lemma LowerIff(s: string, r: string)
    ensures Lower(s) == r <==> LowersTo(s, r)
  {
  }

  // --- decimal octets ---

  predicate IsDigit(c: char) { '0' <= c <= '9' }

  function Digit(n: nat): (c: char)
    requires n < 10
    ensures IsDigit(c)
  {
    '0' + n as char
  }

  function Dec(n: nat): (s: string)
    ensures s != [] && forall c :: c in s ==> IsDigit(c)
  {
    if n < 10 then [Digit(n)] else Dec(n / 10) + [Digit(n % 10)]
  }

  function DecValue(s: string): nat
    requires forall c :: c in s ==> IsDigit(c)
  {
    if s == [] then 0
    else
      assert IsDigit(s[|s| - 1]);
      10 * DecValue(s[..|s| - 1]) + (s[|s| - 1] as int - '0' as int)
  }

  /** One field of a dotted address: digits, no leading zero, at most 255. */
  function ParseOctet(s: string): Option<Byte> {
    if s == [] || (exists c :: c in s && !IsDigit(c)) then None
    else if |s| > 1 && s[0] == '0' then None
    else if DecValue(s) > 255 then None
    else Some(DecValue(s))
  }

  lemma {:induction false} DecRoundTrip(n: nat)
    ensures DecValue(Dec(n)) == n
    ensures Dec(n)[0] == '0' ==> n == 0 && |Dec(n)| == 1
  {
    if n >= 10 {
      DecRoundTrip(n / 10);
      assert Dec(n)[..|Dec(n)| - 1] == Dec(n / 10);
    } else {
      assert Dec(n)[..0] == "";
    }
  }

  lemma OctetRoundTrip(b: Byte)
    ensures ParseOctet(Dec(b)) == Some(b)
  {
    DecRoundTrip(b);
  }
}
