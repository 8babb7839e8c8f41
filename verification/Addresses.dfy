/** The forms in which a source address is stored, looked up, rendered and
    queried: packed uint32 and 16 raw bytes in rptrecord, inet in the derived
    tables, dotted decimal in answers, reversed names in DNS. */
module Addresses {
  import opened Reports
  import opened Text

  /** A parsed address: 4 or 16 bytes (net/netip). */
  datatype Addr = V4(bytes: seq<Byte>) | V6(bytes: seq<Byte>)
  {
    predicate Valid() { |bytes| == if V4? then 4 else 16 }
  }

  /** The two address columns of rptrecord; both null when nothing parsed. */
  datatype Columns = Columns(ip4: Option<int>, ip6: Option<seq<Byte>>)

  const MAPPED: seq<Byte> := [0, 0, 0, 0, 0, 0, 0, 0, 0, 0, 255, 255]

  const TWO_TO_THE_32 := 0x1_0000_0000

  function Pack(b: seq<Byte>): (n: int)
    requires |b| == 4
    ensures 0 <= n < TWO_TO_THE_32
  {
    var b0: int, b1: int, b2: int, b3: int := b[0], b[1], b[2], b[3];
    ((b0 * 256 + b1) * 256 + b2) * 256 + b3
  }

  /** byte(v>>24), byte(v>>16), byte(v>>8), byte(v) of uint32(n). */
  function Unpack(n: int): (b: seq<Byte>)
    ensures |b| == 4
  {
    var v := n % TWO_TO_THE_32;
    [v / 0x1000000, v / 0x10000 % 256, v / 0x100 % 256, v % 256]
  }

  lemma DivisionsCompose(n: nat)
    ensures n / 0x10000 == n / 0x100 / 0x100
    ensures n / 0x1000000 == n / 0x10000 / 0x100
  {
  }

  lemma PackUnpack(n: int)
    requires 0 <= n < TWO_TO_THE_32
    ensures Pack(Unpack(n)) == n
  {
    DivisionsCompose(n);
    var n1, n2, n3 := n / 0x100, n / 0x10000, n / 0x1000000;
    var b := Unpack(n);
    assert b[0] == n3 && b[1] == n2 % 256 && b[2] == n1 % 256 && b[3] == n % 256;
    HighAndLow(n);
    HighAndLow(n1);
    HighAndLow(n2);
    hide Unpack;
    assert Pack(b) == ((n3 * 256 + n2 % 256) * 256 + n1 % 256) * 256 + n % 256;
  }

  lemma HighAndLow(n: int)
    ensures n == n / 256 * 256 + n % 256
  {
  }

  lemma UnpackPack(b: seq<Byte>)
    requires |b| == 4
    ensures Unpack(Pack(b)) == b
  {
    var n := Pack(b);
    var b0: int, b1: int, b2: int, b3: int := b[0], b[1], b[2], b[3];
    var h1, h2 := b0 * 256 + b1, (b0 * 256 + b1) * 256 + b2;
    assert n == h2 * 256 + b3;
    LowByte(h2, b3);
    LowByte(h1, b2);
    LowByte(b0, b1);
    DivisionsCompose(n);
  }

  lemma LowByte(high: int, low: int)
    requires 0 <= low < 256
    ensures (high * 256 + low) / 256 == high && (high * 256 + low) % 256 == low
  {
  }

  predicate IsMapped(b: seq<Byte>) { |b| == 16 && b[..12] == MAPPED }

  /** net.IP as ParseIP returns it: always 16 bytes, IPv4 in mapped form. */
  function To16(a: Addr): seq<Byte>
    requires a.Valid()
  {
    if a.V4? then MAPPED + a.bytes else a.bytes
  }

  function Unmap(a: Addr): (u: Addr)
    requires a.Valid()
    ensures u.Valid()
  {
    if a.V6? && IsMapped(a.bytes) then V4(a.bytes[12..]) else a
  }

  /** What ParseXML stores for the result of net.ParseIP. */
  function Stored(ip: Option<seq<Byte>>): Columns
    requires ip.Some? ==> |ip.value| == 16
  {
    match ip
    case None => Columns(None, None)
    case Some(b) => if IsMapped(b) then Columns(Some(Pack(b[12..])), None) else Columns(None, Some(b))
  }

  /** The column and value IPReportActivity searches for. */
  function LookupKey(a: Addr): Columns
    requires a.Valid()
  {
    var u := Unmap(a);
    if u.V4? then Columns(Some(Pack(u.bytes)), None) else Columns(None, Some(u.bytes))
  }

  /** The observer's view of a record's address. */
  function RecordIP(c: Columns): Option<Addr> {
    match c
    case Columns(Some(n), _) => Some(V4(Unpack(n)))
    case Columns(None, Some(b)) => if |b| == 16 then Some(Unmap(V6(b))) else None
    case _ => None
  }

  /** The backfill's view: '0.0.0.0'::inet + ip, or the hex of ip6 cast to inet. */
  function RecordInet(c: Columns): Option<Addr> {
    match c
    case Columns(Some(n), _) => if 0 <= n < TWO_TO_THE_32 then Some(V4(Unpack(n))) else None
    case Columns(None, Some(b)) => if |b| == 16 then Some(V6(b)) else None
    case _ => None
  }

  /** Searching for an address finds exactly the records it was stored under,
      for every IPv4 and IPv6 address in either notation. */
  lemma StoredUnderLookupKey(a: Addr)
    requires a.Valid()
    ensures Stored(Some(To16(a))) == LookupKey(a)
  {
    if a.V4? { assert To16(a)[..12] == MAPPED && To16(a)[12..] == a.bytes; }
  }

  /** Two addresses share a key only if they are the same address up to the
      IPv4-mapped notation (section 2.5.5.2 of RFC 4291). */
  lemma LookupKeyInjective(a: Addr, a': Addr)
    requires a.Valid() && a'.Valid()
    ensures LookupKey(a) == LookupKey(a') <==> Unmap(a) == Unmap(a')
  {
    var u, u' := Unmap(a), Unmap(a');
    if u.V4? { UnpackPack(u.bytes); }
    if u'.V4? { UnpackPack(u'.bytes); }
  }

  /** Storing and reading back gives the address that was reported. */
  lemma ReadBack(a: Addr)
    requires a.Valid()
    ensures RecordIP(Stored(Some(To16(a)))) == Some(Unmap(a))
  {
    StoredUnderLookupKey(a);
    if Unmap(a).V4? {
      UnpackPack(Unmap(a).bytes);
    } else {
      assert !IsMapped(a.bytes);
    }
  }

  /** The observer and the backfill file a record under the same address exactly
      when it is not an IPv4-mapped address kept in the IPv6 column and not a
      packed value outside 32 bits. */
  lemma ViewsAgreeIff(c: Columns)
    ensures RecordIP(c) == RecordInet(c) <==>
      && (c.ip4.Some? ==> 0 <= c.ip4.value < TWO_TO_THE_32)
      && (c.ip4.None? && c.ip6.Some? ==> !IsMapped(c.ip6.value))
  {
  }

  /** What ParseXML stores is never one of the exceptions. */
  lemma StoredViewsAgree(ip: Option<seq<Byte>>)
    requires ip.Some? ==> |ip.value| == 16
    ensures RecordIP(Stored(ip)) == RecordInet(Stored(ip))
  {
    ViewsAgreeIff(Stored(ip));
  }

  /** The columns for the 16 bytes ParseIP returns: an IPv4 address goes into ip as a
      big-endian number, any other into ip6 byte for byte. */
  lemma ColumnsAre(b: seq<Byte>)
    requires |b| == 16
    ensures var b12: int, b13: int, b14: int, b15: int := b[12], b[13], b[14], b[15];
            var mapped := (forall i :: 0 <= i < 10 ==> b[i] == 0) && b[10] == 255 && b[11] == 255;
      Stored(Some(b)) == if mapped then Columns(Some(b12 * 0x1000000 + b13 * 0x10000 + b14 * 0x100 + b15), None)
                         else Columns(None, Some(b))
  {
    MappedIff(b);
  }

  lemma MappedIff(b: seq<Byte>)
    requires |b| == 16
    ensures IsMapped(b) <==> (forall i :: 0 <= i < 10 ==> b[i] == 0) && b[10] == 255 && b[11] == 255
  {
    assert forall i :: 0 <= i < 12 ==> b[..12][i] == b[i];
    assert IsMapped(b) <==> forall i :: 0 <= i < 12 ==> b[i] == MAPPED[i];
  }

  // --- dotted decimal ---

  function Dotted(b: seq<Byte>): string {
    Join(seq(|b|, i requires 0 <= i < |b| => Dec(b[i])), '.')
  }

  /** renderIP of a packed value. */
  function Render(n: int): string { Dotted(Unpack(n)) }

  function ParseDotted(s: string): Option<seq<Byte>> {
    var f := Split(s, '.');
    if |f| != 4 then None
    else
      match (ParseOctet(f[0]), ParseOctet(f[1]), ParseOctet(f[2]), ParseOctet(f[3]))
      case (Some(a), Some(b), Some(c), Some(d)) => Some([a, b, c, d])
      case _ => None
  }

  lemma DottedSplits(b: seq<Byte>)
    requires b != []
    ensures Split(Dotted(b), '.') == seq(|b|, i requires 0 <= i < |b| => Dec(b[i]))
  {
    SplitJoin(seq(|b|, i requires 0 <= i < |b| => Dec(b[i])), '.');
  }

  /** For all 2^32 packed values: rendering and parsing again is the identity. */
  lemma RenderRoundTrip(n: int)
    requires 0 <= n < TWO_TO_THE_32
    ensures ParseDotted(Render(n)).Some? && Pack(ParseDotted(Render(n)).value) == n
  {
    var b := Unpack(n);
    DottedSplits(b);
    OctetRoundTrip(b[0]);
    OctetRoundTrip(b[1]);
    OctetRoundTrip(b[2]);
    OctetRoundTrip(b[3]);
    assert ParseDotted(Render(n)).value == b;
    PackUnpack(n);
  }

  /** A packed value is rendered from its most significant byte down. */
  lemma RenderIs(b: seq<Byte>)
    requires |b| == 4
    ensures var b0: int, b1: int, b2: int, b3: int := b[0], b[1], b[2], b[3];
      Render(b0 * 0x1000000 + b1 * 0x10000 + b2 * 0x100 + b3)
        == Dec(b[0]) + "." + Dec(b[1]) + "." + Dec(b[2]) + "." + Dec(b[3])
  {
    UnpackPack(b);
    assert seq(4, i requires 0 <= i < 4 => Dec(b[i])) == [Dec(b[0]), Dec(b[1]), Dec(b[2]), Dec(b[3])];
    hide Dec, Join, Unpack;
    JoinFour(Dec(b[0]), Dec(b[1]), Dec(b[2]), Dec(b[3]));
  }

  lemma JoinFour(s0: string, s1: string, s2: string, s3: string)
    ensures Join([s0, s1, s2, s3], '.') == s0 + "." + s1 + "." + s2 + "." + s3
  {
    JoinMore(s2, [s3], '.');
    JoinMore(s1, [s2, s3], '.');
    JoinMore(s0, [s1, s2, s3], '.');
    assert [s2] + [s3] == [s2, s3] && [s1] + [s2, s3] == [s1, s2, s3] && [s0] + [s1, s2, s3] == [s0, s1, s2, s3];
    assert Join([s3], '.') == s3;
    hide Join;
  }

  // --- Team Cymru origin names ---

  const HEX := "0123456789abcdef"

  function HexValue(c: char): int {
    if '0' <= c <= '9' then c as int - '0' as int
    else if 'a' <= c <= 'f' then c as int - 'a' as int + 10
    else -1
  }

  lemma HexRoundTrip(n: nat)
    requires n < 16
    ensures HexValue(HEX[n]) == n && HEX[n] != '.'
  {
  }

  function Reverse(b: seq<Byte>): (r: seq<Byte>)
    ensures |r| == |b| && forall i :: 0 <= i < |b| ==> r[i] == b[|b| - 1 - i]
  {
    seq(|b|, i requires 0 <= i < |b| => b[|b| - 1 - i])
  }

  /** The name carries the bytes: nibble k of the name, counted from the left, is
      the k-th nibble from the right of the address. */
  ghost predicate Nibbles(name: string, b: seq<Byte>, done: nat)
    requires done <= |b|
  {
    && |name| == 4 * done
    && forall k :: 0 <= k < done ==>
         && HexValue(name[4 * k]) == b[|b| - 1 - k] % 16
         && name[4 * k + 1] == '.'
         && HexValue(name[4 * k + 2]) == b[|b| - 1 - k] / 16
         && name[4 * k + 3] == '.'
  }

  const SUFFIX4 := "origin.asn.cymru.com"
  const SUFFIX6 := "origin6.asn.cymru.com"

  method CymruOriginName(a: Addr) returns (name: string)
    requires a.Valid()
    ensures a.V4? ==> name == Dotted(Reverse(a.bytes)) + ".origin.asn.cymru.com"
    ensures a.V6? ==> |name| >= 64 && Nibbles(name[..64], a.bytes, 16) && name[64..] == "origin6.asn.cymru.com"
  {
    if a.V4? {
      return Dotted(Reverse(a.bytes)) + "." + SUFFIX4;
    }
    var sb := "";
    var i := 15;
    while i >= 0
      invariant -1 <= i <= 15 && Nibbles(sb, a.bytes, 15 - i)
    {
      HexRoundTrip(a.bytes[i] % 16);
      HexRoundTrip(a.bytes[i] / 16);
      sb := sb + [HEX[a.bytes[i] % 16]] + ['.'] + [HEX[a.bytes[i] / 16]] + ['.'];
      i := i - 1;
    }
    name := sb + SUFFIX6;
    assert name[..64] == sb;
  }

  /** No two addresses share a nibble name: the name determines every byte. */
  lemma NibblesRecoverAddress(name: string, b: seq<Byte>, b': seq<Byte>)
    requires |b| == |b'| == 16 && Nibbles(name, b, 16) && Nibbles(name, b', 16)
    ensures b == b'
  {
    forall i | 0 <= i < 16 ensures b[i] == b'[i] {
      var k := 15 - i;
      assert HexValue(name[4 * k]) == b[i] % 16 == b'[i] % 16;
      assert HexValue(name[4 * k + 2]) == b[i] / 16 == b'[i] / 16;
    }
  }

  lemma ReversedOctets(b: seq<Byte>)
    requires |b| == 4
    ensures ParseDotted(Dotted(Reverse(b))) == Some(Reverse(b)) && Reverse(Reverse(b)) == b
  {
    var r := Reverse(b);
    DottedSplits(r);
    OctetRoundTrip(r[0]);
    OctetRoundTrip(r[1]);
    OctetRoundTrip(r[2]);
    OctetRoundTrip(r[3]);
    assert r == [r[0], r[1], r[2], r[3]];
  }
}
