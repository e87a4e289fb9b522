/** Exactly which texts are addresses, blocks and domain names, and what they stand for. */
module Grammar {
  import opened Text
  import opened NetAddr
  import opened CidrRange
  import opened Rules

  // ---- Dotted addresses ----

  lemma {:induction false} NoLeadingZero(s: string, n: nat)
    requires ParseNat(s) == Some(n) && (|s| > 1 ==> s[0] != '0')
    ensures s == PrintNat(n)
  {
    if |s| > 1 {
      var front, d := s[..|s| - 1], (s[|s| - 1] as int) - ('0' as int);
      NoLeadingZero(front, ParseNat(front).value);
      assert front[0] != '0';
      assert ParseNat(front).value > 0;
      assert n / 10 == ParseNat(front).value && n % 10 == d;
      assert s == front + [s[|s| - 1]];
    }
  }

  // A number up to 255 without leading zeros, and its byte.
  ghost predicate IsOctet(f: string, b: bv8) { exists n: nat :: n < 256 && f == PrintNat(n) && b == ByteOf(n) }

  lemma OctetIff(f: string, b: bv8)
    ensures ParseOctet(f) == Some(b) <==> IsOctet(f, b)
  {
    if ParseOctet(f) == Some(b) { NoLeadingZero(f, ParseNat(f).value); }
    if IsOctet(f, b) {
      var n: nat :| n < 256 && f == PrintNat(n) && b == ByteOf(n);
      ParsePrintNat(n);
      OctetWidth(n);
    }
  }

  ghost predicate FourOctets(f: seq<string>, s: string, b: Bytes) {
    && |f| == 4 && |b| == 4 && s == f[0] + "." + f[1] + "." + f[2] + "." + f[3]
    && IsOctet(f[0], b[0]) && IsOctet(f[1], b[1]) && IsOctet(f[2], b[2]) && IsOctet(f[3], b[3])
  }

  lemma OctetIsPlain(f: string, b: bv8)
    requires IsOctet(f, b)
    ensures Without(f, '.')
  {
  }

  lemma FourPlain(f: seq<string>)
    requires |f| == 4 && Without(f[0], '.') && Without(f[1], '.') && Without(f[2], '.') && Without(f[3], '.')
    ensures Split(f[0] + "." + f[1] + "." + f[2] + "." + f[3], '.') == f
  {
    JoinFour(f);
    SplitJoin(f, '.');
  }

  lemma FourParse(f: seq<string>, s: string, b: Bytes)
    requires FourOctets(f, s, b)
    ensures ParseIPv4(s) == Some(b)
  {
    OctetIff(f[0], b[0]);
    OctetIff(f[1], b[1]);
    OctetIff(f[2], b[2]);
    OctetIff(f[3], b[3]);
    OctetIsPlain(f[0], b[0]);
    OctetIsPlain(f[1], b[1]);
    OctetIsPlain(f[2], b[2]);
    OctetIsPlain(f[3], b[3]);
    FourPlain(f);
    FourFields(s, b);
  }

  lemma ParsedFour(s: string, b: Bytes) returns (f: seq<string>)
    requires ParseIPv4(s) == Some(b)
    ensures FourOctets(f, s, b)
  {
    f := Split(s, '.');
    OctetIff(f[0], b[0]);
    OctetIff(f[1], b[1]);
    OctetIff(f[2], b[2]);
    OctetIff(f[3], b[3]);
    JoinSplit(s, '.');
    JoinFour(f);
  }

  // A dotted address is four of these with dots between, and nothing else is.
  lemma DottedIff(s: string, b: Bytes)
    ensures ParseIPv4(s) == Some(b) <==> exists f :: FourOctets(f, s, b)
  {
    if ParseIPv4(s) == Some(b) {
      var f := ParsedFour(s, b);
    }
    if exists f :: FourOctets(f, s, b) {
      var f :| FourOctets(f, s, b);
      FourParse(f, s, b);
    }
  }

  // ---- Colon-separated addresses: RFC 4291, section 2.2 ----

  predicate HexGroup(g: string) { 1 <= |g| <= 4 && forall i :: 0 <= i < |g| ==> HexValue(g[i]) >= 0 }

  predicate HexGroups(gs: seq<string>) { forall g :: g in gs ==> HexGroup(g) }

  function GroupBytes(gs: seq<string>): (b: Bytes)
    requires HexGroups(gs)
    ensures |b| == 2 * |gs|
  {
    if gs == [] then [] else assert gs[0] in gs; Group(gs[0]) + GroupBytes(gs[1..])
  }

  function Colons(gs: seq<string>): string { Join(gs, ':') }

  lemma HexRunIs(g: string, rest: string)
    requires HexGroup(g) && (rest != "" ==> HexValue(rest[0]) < 0)
    ensures HexRun(g + rest) == |g| && (g + rest)[..|g|] == g
  {
    var s := g + rest;
    if rest == "" {
      WholeRun(g);
      assert s == g;
    } else {
      assert forall i :: 0 <= i < |g| ==> s[i] == g[i];
      assert s[|g|] == rest[0];
      HexRunAt(s, |g|);
    }
  }

  lemma {:induction false} WholeRun(g: string)
    requires forall i :: 0 <= i < |g| ==> HexValue(g[i]) >= 0
    ensures HexRun(g) == |g|
  {
    if g != "" { WholeRun(g[1..]); }
  }

  lemma FirstIsHex(gs: seq<string>)
    requires gs != [] && HexGroups(gs)
    ensures Colons(gs) != "" && HexValue(Colons(gs)[0]) >= 0
  {
    assert gs[0] in gs;
  }

  lemma EndGroup(g: string, got: Bytes, gap: Option<nat>)
    requires HexGroup(g) && |got| < 16 && (gap.Some? ==> gap.value <= |got|)
    ensures ParseGroups(g, got, gap) == Some((got + Group(g), gap))
  {
    HexRunIs(g, "");
    assert g + "" == g;
  }

  lemma NextGroup(s: string, g: string, tail: string, got: Bytes, gap: Option<nat>)
    requires HexGroup(g) && s == g + ([':'] + tail) && tail != "" && tail[0] != ':'
    requires |got| < 14 && (gap.Some? ==> gap.value <= |got|)
    ensures ParseGroups(s, got, gap) == ParseGroups(tail, got + Group(g), gap)
  {
    HexRunIs(g, [':'] + tail);
    assert s[|g| + 1..] == tail;
    GroupStep(s, |g|, got, gap);
  }

  lemma AppendGroup(gs: seq<string>, got: Bytes)
    requires gs != [] && HexGroups(gs)
    ensures HexGroup(gs[0]) && HexGroups(gs[1..]) && got + Group(gs[0]) + GroupBytes(gs[1..]) == got + GroupBytes(gs)
  {
    assert gs[0] in gs && forall x :: x in gs[1..] ==> x in gs;
  }

  // The groups that are left, to the end of the text.
  lemma {:induction false} LastGroups(gs: seq<string>, got: Bytes, gap: Option<nat>)
    requires gs != [] && HexGroups(gs) && |got| + 2 * |gs| <= 16 && (gap.Some? ==> gap.value <= |got|)
    ensures ParseGroups(Colons(gs), got, gap) == Some((got + GroupBytes(gs), gap))
    decreases |gs|
  {
    var g, rest := gs[0], gs[1..];
    AppendGroup(gs, got);
    if rest == [] {
      EndGroup(g, got, gap);
      assert got + Group(g) + [] == got + Group(g);
    } else {
      FirstIsHex(rest);
      assert Colons(gs) == g + ([':'] + Colons(rest));
      NextGroup(Colons(gs), g, Colons(rest), got, gap);
      LastGroups(rest, got + Group(g), gap);
    }
  }

  // Zeros in between, to sixteen bytes.
  function Filled(a: Bytes, b: Bytes): (r: Bytes)
    requires |a| + |b| <= 16
    ensures |r| == 16
  {
    a + Zeros(16 - |a| - |b|) + b
  }

  function Gapped(a: seq<string>, b: seq<string>): string { Colons(a) + "::" + Colons(b) }

  lemma GapStep(s: string, g: string, tail: string, got: Bytes)
    requires HexGroup(g) && s == g + ("::" + tail) && |got| < 16
    ensures ParseGroups(s, got, None) ==
            if tail == "" then Some((got + Group(g), Some(|got| + 2))) else ParseGroups(tail, got + Group(g), Some(|got| + 2))
  {
    HexRunIs(g, "::" + tail);
    assert s[|g|] == ':' && s[|g| + 1] == ':' && s[|g| + 2..] == tail;
  }

  // Groups up to the gap, and after it: pre is what is read before it.
  lemma {:induction false} GroupsWithGap(a: seq<string>, b: seq<string>, got: Bytes, pre: Bytes)
    requires a != [] && HexGroups(a) && HexGroups(b) && |got| + 2 * |a| + 2 * |b| < 16 && pre == got + GroupBytes(a)
    ensures ParseGroups(Gapped(a, b), got, None) == Some((pre + GroupBytes(b), Some(|pre|)))
    decreases |a|
  {
    AppendGroup(a, got);
    if |a| == 1 {
      assert a == [a[0]];
      OneGroup(a[0]);
      LastBeforeGap(a[0], b, got);
    } else {
      BeforeGap(a, b, got);
      GroupsWithGap(a[1..], b, got + Group(a[0]), pre);
    }
  }

  lemma OneBeforeGap(g: string, b: seq<string>)
    ensures Gapped([g], b) == g + ("::" + Colons(b))
  {
    assert Colons([g]) == g;
  }

  lemma OneGroup(g: string)
    requires HexGroup(g)
    ensures HexGroups([g]) && GroupBytes([g]) == Group(g)
  {
    assert [g][1..] == [] && Group(g) + [] == Group(g);
  }

  lemma LastBeforeGap(g: string, b: seq<string>, got: Bytes)
    requires HexGroup(g) && HexGroups(b) && |got| + 2 + 2 * |b| < 16
    ensures ParseGroups(Gapped([g], b), got, None) == Some((got + Group(g) + GroupBytes(b), Some(|got| + 2)))
  {
    OneBeforeGap(g, b);
    AtTheGap(Gapped([g], b), g, b, got);
  }

  lemma ColonsCons(gs: seq<string>)
    requires |gs| > 1
    ensures Colons(gs) == gs[0] + ([':'] + Colons(gs[1..]))
  {
    assert gs[0] + [':'] + Colons(gs[1..]) == gs[0] + ([':'] + Colons(gs[1..]));
  }

  lemma BeforeGap(a: seq<string>, b: seq<string>, got: Bytes)
    requires |a| > 1 && HexGroups(a) && |got| < 14
    ensures HexGroup(a[0]) && ParseGroups(Gapped(a, b), got, None) == ParseGroups(Gapped(a[1..], b), got + Group(a[0]), None)
  {
    AppendGroup(a, got);
    FirstIsHex(a[1..]);
    ColonsCons(a);
    ThenGap(a[0], Colons(a), Colons(a[1..]), "::" + Colons(b), got);
    GappedIs(a, b);
    GappedIs(a[1..], b);
  }

  lemma GappedIs(a: seq<string>, b: seq<string>)
    ensures Gapped(a, b) == Colons(a) + ("::" + Colons(b))
  {
  }

  lemma ThenGap(g: string, all: string, rest: string, end: string, got: Bytes)
    requires HexGroup(g) && all == g + ([':'] + rest) && rest != "" && HexValue(rest[0]) >= 0 && |got| < 14
    ensures ParseGroups(all + end, got, None) == ParseGroups(rest + end, got + Group(g), None)
  {
    assert all + end == g + ([':'] + (rest + end)) && (rest + end)[0] == rest[0];
    NextGroup(all + end, g, rest + end, got, None);
  }

  lemma AtTheGap(s: string, g: string, b: seq<string>, got: Bytes)
    requires HexGroup(g) && HexGroups(b) && s == g + ("::" + Colons(b)) && |got| + 2 + 2 * |b| < 16
    ensures ParseGroups(s, got, None) == Some((got + Group(g) + GroupBytes(b), Some(|got| + 2)))
  {
    GapStep(s, g, Colons(b), got);
    if b == [] {
      assert got + Group(g) + [] == got + Group(g);
    } else {
      FirstIsHex(b);
      LastGroups(b, got + Group(g), Some(|got| + 2));
    }
  }

  lemma {:induction false} ColonsChars(gs: seq<string>)
    requires HexGroups(gs)
    ensures forall i :: 0 <= i < |Colons(gs)| ==> HexValue(Colons(gs)[i]) >= 0 || Colons(gs)[i] == ':'
  {
    if gs != [] {
      assert gs[0] in gs && forall x :: x in gs[1..] ==> x in gs;
      ColonsChars(gs[1..]);
      assert |gs| > 1 ==> Colons(gs) == gs[0] + [':'] + Colons(gs[1..]);
    }
  }

  lemma ColonText(s: string, i: nat)
    requires (forall k :: 0 <= k < |s| ==> HexValue(s[k]) >= 0 || s[k] == ':') && i < |s| && s[i] == ':'
    ensures ParseIP(s) == ParseIPv6(s)
  {
    assert HexValue('.') < 0;
    assert Index(s, '.').None?;
  }

  // Eight groups of one to four hexadecimal digits.
  lemma EightGroups(gs: seq<string>)
    requires |gs| == 8 && HexGroups(gs)
    ensures ParseIP(Colons(gs)) == Some(GroupBytes(gs))
  {
    var s := Colons(gs);
    ColonsChars(gs);
    FirstIsHex(gs);
    assert gs[0] in gs && s == gs[0] + [':'] + Colons(gs[1..]);
    ColonText(s, |gs[0]|);
    assert !HasPrefix(s, "::") by { assert s[..2][0] == s[0]; }
    LastGroups(gs, [], None);
    assert [] + GroupBytes(gs) == GroupBytes(gs);
  }

  lemma GappedIsSix(a: seq<string>, b: seq<string>)
    requires HexGroups(a) && HexGroups(b)
    ensures ParseIP(Gapped(a, b)) == ParseIPv6(Gapped(a, b))
  {
    ColonsChars(a);
    ColonsChars(b);
    assert Gapped(a, b)[|Colons(a)|] == ':';
    ColonText(Gapped(a, b), |Colons(a)|);
  }

  lemma StartsWithGroup(a: seq<string>, b: seq<string>)
    requires a != [] && HexGroups(a)
    ensures !HasPrefix(Gapped(a, b), "::")
  {
    FirstIsHex(a);
    assert Gapped(a, b)[0] == Colons(a)[0];
    assert Gapped(a, b)[..2][0] == Gapped(a, b)[0];
  }

  // Up to seven, with one gap that stands for zeros.
  lemma GappedGroups(a: seq<string>, b: seq<string>)
    requires HexGroups(a) && HexGroups(b) && |a| + |b| <= 7
    ensures ParseIP(Gapped(a, b)) == Some(Filled(GroupBytes(a), GroupBytes(b)))
  {
    GappedIsSix(a, b);
    if a != [] {
      StartsWithGroup(a, b);
      GapInside(a, b);
    } else {
      LeadingGroups(Gapped(a, b), b);
    }
  }

  lemma GapInside(a: seq<string>, b: seq<string>)
    requires a != [] && HexGroups(a) && HexGroups(b) && |a| + |b| <= 7
    ensures Expand(ParseGroups(Gapped(a, b), [], None)) == Some(Filled(GroupBytes(a), GroupBytes(b)))
  {
    EmptyStart(GroupBytes(a));
    GroupsWithGap(a, b, [], GroupBytes(a));
    ExpandGap(GroupBytes(a), GroupBytes(b));
  }

  lemma EmptyStart(b: Bytes)
    ensures [] + b == b
  {
  }

  lemma ExpandGap(a: Bytes, b: Bytes)
    requires |a| + |b| < 16
    ensures Expand(Some((a + b, Some(|a|)))) == Some(Filled(a, b))
  {
    assert (a + b)[..|a|] == a && (a + b)[|a|..] == b;
  }

  lemma LeadingGroups(s: string, b: seq<string>)
    requires HexGroups(b) && |b| <= 7 && s == "" + "::" + Colons(b)
    ensures ParseIPv6(s) == Some(Filled([], GroupBytes(b)))
  {
    if b == [] {
      OnlyGap(s);
    } else {
      FirstIsHex(b);
      AfterLeadingGap(s, Colons(b));
      AfterLeadingGroups(b, GroupBytes(b));
      assert ParseIPv6(s) == Expand(ParseGroups(Colons(b), [], Some(0)));
    }
  }

  lemma OnlyGap(s: string)
    requires s == "" + "::" + ""
    ensures ParseIPv6(s) == Some(Filled([], []))
  {
    assert s == "::" && [] + Zeros(16) + [] == Zeros(16);
  }

  lemma AfterLeadingGroups(b: seq<string>, bytes: Bytes)
    requires b != [] && HexGroups(b) && |b| <= 7 && bytes == GroupBytes(b)
    ensures Expand(ParseGroups(Colons(b), [], Some(0))) == Some(Filled([], bytes))
  {
    EmptyStart(bytes);
    LastGroups(b, [], Some(0));
    ExpandGap([], bytes);
  }

  lemma AfterLeadingGap(s: string, tail: string)
    requires s == "" + "::" + tail && tail != ""
    ensures ParseIPv6(s) == Expand(ParseGroups(tail, [], Some(0)))
  {
    assert s[..2] == "::" && s[2..] == tail;
  }

  // ---- Which blocks and addresses a rule may name ----

  // An address rule may name what is an address or a block, unless that covers 0.0.0.0.
  lemma ValidCidrIff(cidr: string)
    ensures ValidCidr(cidr) <==> Accepted(cidr) && !Denotes(cidr, Zeros(4))
  {
    if ValidCidr(cidr) { ValidExcludesZero(cidr); }
    if ParseIP(cidr).None? && ParseCIDR(cidr).Some? && IsZero(ParseCIDR(cidr).value.ip) { ZeroNetwork(cidr); }
  }

  lemma ZeroNetwork(cidr: string)
    requires ParseCIDR(cidr).Some? && IsZero(ParseCIDR(cidr).value.ip)
    ensures Denotes(cidr, Zeros(4))
  {
    var net := ParseCIDR(cidr).value;
    CidrIsNotIP(cidr);
    SameAsItself(Zeros(4), if |net.mask| == 16 then net.mask[12..] else net.mask);
  }

  lemma {:induction false} SameAsItself(a: Bytes, m: Bytes)
    requires |a| == |m|
    ensures SameUnder(a, a, m)
  {
    if a != [] { SameAsItself(a[1..], m[1..]); }
  }

  // A client rule likewise, but that among bare addresses only the text 0.0.0.0 is refused.
  lemma ValidAclIff(cidr: string)
    ensures ValidAclCidr(cidr) <==>
            Accepted(cidr) && (Denotes(cidr, Zeros(4)) ==> ParseIP(cidr).Some? && cidr != "0.0.0.0")
  {
    ValidCidrIff(cidr);
    ZeroText("0.0.0.0");
  }

  lemma ZeroText(s: string)
    requires s == "0.0.0.0"
    ensures ParseIP(s) == Some(Zeros(4))
  {
    var b: Bytes := [0, 0, 0, 0];
    assert PrintNat(0) == "0";
    assert PrintIPv4(b) == "0" + "." + "0" + "." + "0" + "." + "0";
    DottedIP(s, b);
    assert b == Zeros(4);
  }

  // Other ways to write it get through.
  lemma ZeroGetsThrough(dotted: string) returns (cidr: string)
    requires ParseIPv4(dotted) == Some(Zeros(4))
    ensures cidr == "::" + ("ffff:" + dotted) && ValidAclCidr(cidr) && Denotes(cidr, Zeros(4))
  {
    cidr := "::" + ("ffff:" + dotted);
    MappedAddress(dotted);
    StartsWithColon(cidr, "ffff:" + dotted);
    MappedZero(Zeros(10) + ([0xFF, 0xFF] + Zeros(4)));
  }

  lemma StartsWithColon(cidr: string, tail: string)
    requires cidr == "::" + tail
    ensures cidr != "0.0.0.0"
  {
    assert cidr[0] == ':';
  }

  lemma MappedZero(b: Bytes)
    requires b == Zeros(10) + ([0xFF, 0xFF] + Zeros(4))
    ensures Norm(b) == Zeros(4)
  {
    assert b[..10] == Zeros(10) && b[12..] == Zeros(4);
  }

  // 0.0.0.0 itself is such a text.
  lemma ZeroIsDotted(s: string)
    requires s == "0.0.0.0"
    ensures ParseIPv4(s) == Some(Zeros(4))
  {
    var b: Bytes := [0, 0, 0, 0];
    assert PrintNat(0) == "0";
    assert PrintIPv4(b) == "0" + "." + "0" + "." + "0" + "." + "0";
    assert s == PrintIPv4(b);
    ParsePrintIPv4(b);
    assert b == Zeros(4);
  }

  // ---- Domain names: the pattern of RFC 1123, section 2.1, with an optional wildcard ----

  predicate LetterOrDigit(c: char) { 'a' <= c <= 'z' || 'A' <= c <= 'Z' || '0' <= c <= '9' }

  // Letters, digits and inner hyphens.
  predicate NameLabel(l: string) {
    && l != "" && l[0] != '-' && l[|l| - 1] != '-'
    && forall i :: 0 <= i < |l| ==> LetterOrDigit(l[i]) || l[i] == '-'
  }

  function Wildcarded(star: bool, labels: seq<string>): string { (if star then "*." else "") + Join(labels, '.') }

  lemma NameLabelIff(l: string)
    ensures IsLabel(l) <==> NameLabel(l)
  {
  }

  // Two or more labels, after "*." or not.
  lemma DomainIff(domain: string)
    ensures IsDomain(domain) <==>
            exists star, labels :: |labels| >= 2 && (forall l :: l in labels ==> NameLabel(l)) && domain == Wildcarded(star, labels)
  {
    forall l ensures IsLabel(l) <==> NameLabel(l) { NameLabelIff(l); }
    if IsDomain(domain) { DomainIsJoined(domain); }
    forall star, labels | |labels| >= 2 && (forall l :: l in labels ==> NameLabel(l)) && domain == Wildcarded(star, labels)
      ensures IsDomain(domain)
    {
      JoinedIsDomain(star, labels);
    }
  }

  lemma DomainIsJoined(domain: string)
    requires IsDomain(domain)
    ensures var labels := Split(Host(domain), '.');
            |labels| >= 2 && (forall l :: l in labels ==> IsLabel(l)) && domain == Wildcarded(HasPrefix(domain, "*."), labels)
  {
    JoinSplit(Host(domain), '.');
    if HasPrefix(domain, "*.") { assert domain == "*." + domain[2..]; } else { assert domain == "" + domain; }
  }

  lemma JoinedIsDomain(star: bool, labels: seq<string>)
    requires |labels| >= 2 && forall l :: l in labels ==> IsLabel(l)
    ensures IsDomain(Wildcarded(star, labels))
  {
    var h, domain := Join(labels, '.'), Wildcarded(star, labels);
    forall l | l in labels ensures Without(l, '.') { assert !IsAlnum('.'); }
    SplitJoin(labels, '.');
    assert labels[0] in labels && h[0] == labels[0][0];
    if star {
      assert domain[2..] == h && HasPrefix(domain, "*.");
    } else {
      assert domain == h && !HasPrefix(domain, "*.") by { assert domain == "" + h && domain[..2][0] == domain[0]; }
    }
  }
}
