/**
IP addresses and CIDR blocks as Go's net package reads and prints them. Bytes are
bit-vectors, because the code under study works on them with masks.
*/
module NetAddr {
  import opened Text

  type Bytes = seq<bv8>

  // A parsed address: V4 with four bytes, V6 with sixteen.
  ghost predicate IsAddr(b: Bytes) { |b| == 4 || |b| == 16 }

  // ---- Reading text ----

  function ByteOf(n: nat): bv8 requires n < 256 { n as bv8 }

  // One dotted field: one to three digits, no leading zero, at most 255.
  function ParseOctet(s: string): Option<bv8> {
    if |s| > 3 || (|s| > 1 && s[0] == '0') then None
    else match ParseNat(s)
      case None => None
      case Some(n) => if n < 256 then Some(ByteOf(n)) else None
  }

  function ParseIPv4(s: string): (r: Option<Bytes>)
    ensures r.Some? ==> |r.value| == 4
  {
    var f := Split(s, '.');
    if |f| != 4 then None
    else match (ParseOctet(f[0]), ParseOctet(f[1]), ParseOctet(f[2]), ParseOctet(f[3]))
      case (Some(a), Some(b), Some(c), Some(d)) => Some([a, b, c, d])
      case _ => None
  }

  function HexValue(c: char): (v: int)
    ensures -1 <= v < 16
  {
    if '0' <= c <= '9' then c as int - '0' as int
    else if 'a' <= c <= 'f' then c as int - 'a' as int + 10
    else if 'A' <= c <= 'F' then c as int - 'A' as int + 10
    else -1
  }

  // Length of the leading run of hexadecimal digits.
  function HexRun(s: string): (n: nat)
    ensures n <= |s| && forall i :: 0 <= i < n ==> HexValue(s[i]) >= 0
  {
    if s == "" || HexValue(s[0]) < 0 then 0 else 1 + HexRun(s[1..])
  }

  function HexNumber(s: string): nat
    requires forall i :: 0 <= i < |s| ==> HexValue(s[i]) >= 0
  {
    if s == "" then 0 else 16 * HexNumber(s[..|s| - 1]) + HexValue(s[|s| - 1])
  }

  function Group(s: string): (b: Bytes)
    requires forall i :: 0 <= i < |s| ==> HexValue(s[i]) >= 0
    ensures |b| == 2
  {
    [ByteOf(HexNumber(s) / 256 % 256), ByteOf(HexNumber(s) % 256)]
  }

  // What ends the leading group of at most four digits: a dot of an embedded IPv4 address,
  // the end of the text, one colon, or two.
  datatype GroupEnd = Wrong | AtDot | AtEnd | AtColon | AtGap

  function GroupEndOf(s: string): (e: GroupEnd)
    ensures e.AtColon? || e.AtGap? ==> HexRun(s) + 1 < |s| && s[HexRun(s)] == ':'
    ensures e.AtGap? ==> s[HexRun(s) + 1] == ':'
    ensures e.AtEnd? ==> HexRun(s) == |s|
    ensures !e.Wrong? ==> HexRun(s) > 0
  {
    var off := HexRun(s);
    if off == 0 || off > 4 then Wrong
    else if off == |s| then AtEnd
    else if s[off] == '.' then AtDot
    else if s[off] != ':' || off + 1 == |s| then Wrong
    else if s[off + 1] == ':' then AtGap else AtColon
  }

  // The loop over colon-separated groups: the bytes so far, and where "::" stood.
  function ParseGroups(s: string, got: Bytes, gap: Option<nat>): (r: Option<(Bytes, Option<nat>)>)
    requires gap.Some? ==> gap.value <= |got|
    ensures r.Some? && r.value.1.Some? ==> r.value.1.value <= |r.value.0|
    decreases |s|
  {
    var next := got + Group(s[..HexRun(s)]);
    if |got| >= 16 then None
    else match GroupEndOf(s)
      case Wrong => None
      case AtDot =>
        if (gap.None? && |got| != 12) || |got| + 4 > 16 then None
        else (match ParseIPv4(s)
          case None => None
          case Some(v4) => Some((got + v4, gap)))
      case AtEnd => Some((next, gap))
      case AtColon => ParseGroups(s[HexRun(s) + 1..], next, gap)
      case AtGap =>
        if gap.Some? then None
        else if HexRun(s) + 2 == |s| then Some((next, Some(|next|)))
        else ParseGroups(s[HexRun(s) + 2..], next, Some(|next|))
  }

  function Zeros(n: nat): (b: Bytes)
    ensures |b| == n && forall i :: 0 <= i < n ==> b[i] == 0
  {
    seq(n, _ => 0)
  }

  function Expand(parsed: Option<(Bytes, Option<nat>)>): (r: Option<Bytes>)
    requires parsed.Some? && parsed.value.1.Some? ==> parsed.value.1.value <= |parsed.value.0|
    ensures r.Some? ==> |r.value| == 16
  {
    match parsed
    case None => None
    case Some((got, None)) => if |got| == 16 then Some(got) else None
    case Some((got, Some(g))) =>
      if |got| >= 16 then None else Some(got[..g] + Zeros(16 - |got|) + got[g..])
  }

  function ParseIPv6(s: string): (r: Option<Bytes>)
    ensures r.Some? ==> |r.value| == 16
  {
    if !HasPrefix(s, "::") then Expand(ParseGroups(s, [], None))
    else if s == "::" then Some(Zeros(16))
    else Expand(ParseGroups(s[2..], [], Some(0)))
  }

  // The first '.' or ':' decides the family; a zone ('%') is never accepted.
  function ParseIP(s: string): (r: Option<Bytes>)
    ensures r.Some? ==> IsAddr(r.value)
  {
    match (Index(s, '.'), Index(s, ':'))
    case (None, None) => None
    case (Some(_), None) => ParseIPv4(s)
    case (None, Some(_)) => ParseIPv6(s)
    case (Some(d), Some(c)) => if d < c then ParseIPv4(s) else ParseIPv6(s)
  }

  // ---- Masks and networks ----

  function PrefixByte(n: nat): bv8 {
    if n == 0 then 0 else if n == 1 then 0x80 else if n == 2 then 0xC0
    else if n == 3 then 0xE0 else if n == 4 then 0xF0 else if n == 5 then 0xF8
    else if n == 6 then 0xFC else if n == 7 then 0xFE else 0xFF
  }

  // CIDRMask(ones, 8 * size)
  function CIDRMask(ones: nat, size: nat): (m: Bytes)
    ensures |m| == size
  {
    if size == 0 then []
    else [PrefixByte(ones)] + CIDRMask(if ones < 8 then 0 else ones - 8, size - 1)
  }

  // IP.Mask, byte by byte
  function Masked(ip: Bytes, mask: Bytes): (b: Bytes)
    requires |ip| == |mask|
    ensures |b| == |ip|
  {
    if ip == [] then [] else [ip[0] & mask[0]] + Masked(ip[1..], mask[1..])
  }

  datatype IPNet = IPNet(ip: Bytes, mask: Bytes)

  ghost predicate IsNet(net: IPNet) {
    IsAddr(net.ip) && |net.mask| == |net.ip|
  }

  // ParseCIDR: the network address is masked; the prefix length is at most the width.
  function ParseCIDR(s: string): (r: Option<IPNet>)
    ensures r.Some? ==> IsNet(r.value)
  {
    match Index(s, '/')
    case None => None
    case Some(i) =>
      match (ParseIP(s[..i]), ParseNat(s[i + 1..]))
      case (Some(b), Some(n)) =>
        if n > 8 * |b| then None
        else Some(IPNet(Masked(b, CIDRMask(n, |b|)), CIDRMask(n, |b|)))
      case _ => None
  }

  // IP.To4: the four bytes of an IPv4 address, also when it is written in IPv6.
  function To4(b: Bytes): (r: Option<Bytes>)
    ensures r.Some? ==> |r.value| == 4
  {
    if |b| == 4 then Some(b)
    else if |b| == 16 && b[..10] == Zeros(10) && b[10] == 0xFF && b[11] == 0xFF then Some(b[12..])
    else None
  }

  // The form in which two addresses are compared: four bytes wherever possible.
  function Norm(b: Bytes): Bytes {
    match To4(b) case Some(v4) => v4 case None => b
  }

  predicate SameUnder(a: Bytes, b: Bytes, mask: Bytes)
    requires |a| == |b| == |mask|
  {
    a == [] || (a[0] & mask[0] == b[0] & mask[0] && SameUnder(a[1..], b[1..], mask[1..]))
  }

  // IPNet.Contains: the address agrees with the network on the prefix bits.
  predicate Contains(net: IPNet, a: Bytes) {
    var ip, addr := Norm(net.ip), Norm(a);
    var mask := if |ip| == 4 && |net.mask| == 16 then net.mask[12..] else net.mask;
    |ip| == |addr| && |mask| == |ip| && SameUnder(addr, ip, mask)
  }

  // The addresses a text denotes: one address, or those of a CIDR block.
  predicate Denotes(text: string, a: Bytes) {
    match ParseIP(text)
    case Some(ip) => Norm(ip) == Norm(a)
    case None =>
      match ParseCIDR(text)
      case Some(net) => Contains(net, a)
      case None => false
  }

  // ---- Printing ----

  function PrintIPv4(b: Bytes): string
    requires |b| == 4
  {
    PrintNat(b[0] as nat) + "." + PrintNat(b[1] as nat) + "." +
    PrintNat(b[2] as nat) + "." + PrintNat(b[3] as nat)
  }

  lemma OctetWidth(n: nat)
    requires n < 256
    ensures |PrintNat(n)| <= 3
  {
    var t, h := n / 10, n / 10 / 10;
    assert h < 10 && |PrintNat(h)| == 1;
    assert |PrintNat(t)| <= 2;
  }

  lemma ParsePrintOctet(b: bv8)
    ensures ParseOctet(PrintNat(b as nat)) == Some(b)
    ensures Without(PrintNat(b as nat), '.')
  {
    ParsePrintNat(b as nat);
    OctetWidth(b as nat);
    assert AllDigits(PrintNat(b as nat));
  }

  lemma FourFields(s: string, b: Bytes)
    requires |b| == 4 && |Split(s, '.')| == 4
    requires ParseOctet(Split(s, '.')[0]) == Some(b[0]) && ParseOctet(Split(s, '.')[1]) == Some(b[1])
    requires ParseOctet(Split(s, '.')[2]) == Some(b[2]) && ParseOctet(Split(s, '.')[3]) == Some(b[3])
    ensures ParseIPv4(s) == Some(b)
  {
    assert b == [b[0], b[1], b[2], b[3]];
  }

  function Fields(b: Bytes): seq<string>
    requires |b| == 4
  {
    [PrintNat(b[0] as nat), PrintNat(b[1] as nat), PrintNat(b[2] as nat), PrintNat(b[3] as nat)]
  }

  lemma SplitPrinted(b: Bytes)
    requires |b| == 4
    ensures Split(PrintIPv4(b), '.') == Fields(b)
  {
    ParsePrintOctet(b[0]);
    ParsePrintOctet(b[1]);
    ParsePrintOctet(b[2]);
    ParsePrintOctet(b[3]);
    JoinFour(Fields(b));
    SplitJoin(Fields(b), '.');
  }

  // Reading the printed dotted form gives the same four bytes.
  lemma ParsePrintIPv4(b: Bytes)
    requires |b| == 4
    ensures ParseIPv4(PrintIPv4(b)) == Some(b)
  {
    SplitPrinted(b);
    ParsePrintOctet(b[0]);
    ParsePrintOctet(b[1]);
    ParsePrintOctet(b[2]);
    ParsePrintOctet(b[3]);
    FourFields(PrintIPv4(b), b);
  }

  lemma NoColon(b: bv8)
    ensures Without(PrintNat(b as nat), ':')
  {
  }

  // So does ParseIP, which sees that it is a dotted form.
  lemma DottedIP(s: string, b: Bytes)
    requires |b| == 4 && s == PrintIPv4(b)
    ensures ParseIP(s) == Some(b)
  {
    ParsePrintIPv4(b);
    NoColon(b[0]);
    NoColon(b[1]);
    NoColon(b[2]);
    NoColon(b[3]);
    assert Without(s, ':');
    if Index(s, '.').None? { SplitWhole(s, '.'); }
  }

  lemma JoinFour(f: seq<string>)
    requires |f| == 4
    ensures Join(f, '.') == f[0] + "." + f[1] + "." + f[2] + "." + f[3]
  {
    var one, two, three := f[1..], f[2..], f[3..];
    assert three == [f[3]] && two[1..] == three && one[1..] == two;
    assert Join(two, '.') == f[2] + "." + f[3];
    assert Join(one, '.') == f[1] + "." + (f[2] + "." + f[3]);
    assert Join(f, '.') == f[0] + "." + (f[1] + "." + (f[2] + "." + f[3]));
  }

  // ---- Which characters an accepted text can hold ----

  predicate AddrChar(c: char) {
    HexValue(c) >= 0 || c == '.' || c == ':'
  }

  ghost predicate AllAddrChars(s: string) {
    forall i :: 0 <= i < |s| ==> AddrChar(s[i])
  }

  lemma {:induction false} ParseNatChars(s: string)
    requires ParseNat(s).Some?
    ensures s != "" && AllDigits(s)
  {
    if |s| > 1 {
      ParseNatChars(s[..|s| - 1]);
    }
  }

  lemma ParseIPv4Chars(s: string)
    requires ParseIPv4(s).Some?
    ensures s != "" && AllAddrChars(s)
  {
    JoinSplit(s, '.');
    var f := Split(s, '.');
    ParseNatChars(f[0]);
    ParseNatChars(f[1]);
    ParseNatChars(f[2]);
    ParseNatChars(f[3]);
    JoinFour(f);
  }

  lemma CharsConcat(a: string, b: string, s: string)
    requires s == a + b && AllAddrChars(a) && AllAddrChars(b)
    ensures AllAddrChars(s)
  {
  }

  // One group, the colons after it and the rest.
  lemma GroupChars(s: string, off: nat, skip: nat)
    requires off == HexRun(s) && off + skip <= |s|
    requires (skip >= 1 ==> s[off] == ':') && (skip == 2 ==> s[off + 1] == ':') && skip <= 2
    requires AllAddrChars(s[off + skip..])
    ensures AllAddrChars(s)
  {
    forall i | 0 <= i < |s| ensures AddrChar(s[i]) {
      if i >= off + skip { assert s[i] == s[off + skip..][i - off - skip]; }
    }
  }

  lemma {:induction false} ParseGroupsChars(s: string, got: Bytes, gap: Option<nat>)
    requires gap.Some? ==> gap.value <= |got|
    requires ParseGroups(s, got, gap).Some?
    ensures s != "" && AllAddrChars(s)
    decreases |s|
  {
    var off, next := HexRun(s), got + Group(s[..HexRun(s)]);
    match GroupEndOf(s)
    case AtDot => ParseIPv4Chars(s);
    case AtEnd => GroupChars(s, off, 0);
    case AtColon =>
      ParseGroupsChars(s[off + 1..], next, gap);
      GroupChars(s, off, 1);
    case AtGap =>
      if off + 2 < |s| { ParseGroupsChars(s[off + 2..], next, Some(|next|)); }
      GroupChars(s, off, 2);
  }

  lemma ParseIPv6Chars(s: string)
    requires ParseIPv6(s).Some?
    ensures s != "" && AllAddrChars(s)
  {
    if !HasPrefix(s, "::") {
      ParseGroupsChars(s, [], None);
    } else if s != "::" {
      ParseGroupsChars(s[2..], [], Some(0));
      assert s == "::" + s[2..];
    }
  }

  // An accepted address holds only hexadecimal digits, dots and colons.
  lemma ParseIPChars(s: string)
    requires ParseIP(s).Some?
    ensures s != "" && AllAddrChars(s)
  {
    if ParseIPv4(s).Some? {
      ParseIPv4Chars(s);
    } else {
      ParseIPv6Chars(s);
    }
  }

  predicate CidrChar(c: char) {
    AddrChar(c) || c == '/'
  }

  lemma SlashChars(a: string, digits: string, s: string)
    requires s == a + "/" + digits && AllAddrChars(a) && AllDigits(digits)
    ensures forall i :: 0 <= i < |s| ==> CidrChar(s[i])
  {
  }

  lemma ParseCIDRChars(s: string)
    requires ParseCIDR(s).Some?
    ensures s != "" && forall i :: 0 <= i < |s| ==> CidrChar(s[i])
  {
    var i := Index(s, '/').value;
    ParseIPChars(s[..i]);
    ParseNatChars(s[i + 1..]);
    assert s == s[..i] + "/" + s[i + 1..];
    SlashChars(s[..i], s[i + 1..], s);
  }
}
