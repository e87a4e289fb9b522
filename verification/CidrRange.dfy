/**
cidrToRange: a CIDR block written as the start-end range that parent.config
understands, and what that range means.
*/
module CidrRange {
  import opened Text
  import opened NetAddr

  // ---- The text ----

  // end[i] = start[i] | ^mask[i], for the positions of start
  function RangeEnd(start: Bytes, mask: Bytes): (end: Bytes)
    requires |start| <= |mask|
    ensures |end| == |start|
  {
    if start == [] then [] else [start[0] | !mask[0]] + RangeEnd(start[1..], mask[1..])
  }

  lemma {:induction false} RangeEndAt(start: Bytes, mask: Bytes, i: nat)
    requires i < |start| <= |mask|
    ensures RangeEnd(start, mask)[i] == start[i] | !mask[i]
  {
    if i > 0 { RangeEndAt(start[1..], mask[1..], i - 1); }
  }

  function RangeText(cidr: string): string {
    match ParseCIDR(cidr)
    case None => cidr
    case Some(net) =>
      match To4(net.ip)
      case None => cidr
      case Some(start) => PrintIPv4(start) + "-" + PrintIPv4(RangeEnd(start, net.mask))
  }

  method CidrToRange(cidr: string) returns (text: string)
    ensures text == RangeText(cidr)
  {
    var parsed := ParseCIDR(cidr);
    if parsed.None? { return cidr; }
    var start := To4(parsed.value.ip);
    if start.None? { return cidr; }
    var end := LastAddress(start.value, parsed.value.mask);
    text := PrintIPv4(start.value) + "-" + PrintIPv4(end);
  }

  method LastAddress(start: Bytes, mask: Bytes) returns (end: Bytes)
    requires |start| <= |mask|
    ensures end == RangeEnd(start, mask)
  {
    var bytes := new bv8[|start|];
    for i := 0 to |start|
      invariant forall j :: 0 <= j < i ==> bytes[j] == RangeEnd(start, mask)[j]
    {
      RangeEndAt(start, mask, i);
      bytes[i] := start[i] | !mask[i];
    }
    end := bytes[..];
  }

  // ---- Its reading ----

  function Pow2(n: nat): nat { if n == 0 then 1 else 2 * Pow2(n - 1) }

  function Pow256(n: nat): (p: nat)
    ensures p > 0
  {
    if n == 0 then 1 else 256 * Pow256(n - 1)
  }

  // Big-endian value of an address: the numeric order of RFC 4632, section 3.1.
  function Value(b: Bytes): nat {
    if b == [] then 0 else (b[0] as nat) * Pow256(|b| - 1) + Value(b[1..])
  }

  function ParseRange(text: string): (r: Option<(Bytes, Bytes)>)
    ensures r.Some? ==> |r.value.0| == 4 && |r.value.1| == 4
  {
    match Index(text, '-')
    case None => None
    case Some(i) =>
      match (ParseIPv4(text[..i]), ParseIPv4(text[i + 1..]))
      case (Some(lo), Some(hi)) => Some((lo, hi))
      case _ => None
  }

  // The addresses a dest_ip field covers: a range, or else what its text denotes.
  predicate Covers(field: string, a: Bytes) {
    match ParseRange(field)
    case Some((lo, hi)) => |Norm(a)| == 4 && Value(lo) <= Value(Norm(a)) <= Value(hi)
    case None => Denotes(field, a)
  }

  ghost predicate Accepted(cidr: string) {
    ParseIP(cidr).Some? || ParseCIDR(cidr).Some?
  }

  // ---- Interval arithmetic on bytes ----

  lemma MulLe(x: nat, y: nat, p: nat)
    requires x <= y
    ensures x * p <= y * p
  {
  }

  lemma MulLt(x: nat, y: nat, p: nat)
    requires x < y
    ensures x * p + p <= y * p
  {
    MulLe(x + 1, y, p);
  }

  // Comparing head first: h, t between l, lt and u, ut in base p.
  lemma Lexicographic(h: nat, t: nat, l: nat, lt: nat, u: nat, ut: nat, p: nat)
    requires t < p && lt < p && ut < p && l <= u
    requires l == u || (lt == 0 && ut == p - 1)
    ensures l * p + lt <= h * p + t <= u * p + ut <==>
            if l == u then h == l && lt <= t <= ut else l <= h <= u
  {
    if h < l { MulLt(h, l, p); } else { MulLe(l, h, p); }
    if h > u { MulLt(u, h, p); } else { MulLe(h, u, p); }
    if l < h { MulLt(l, h, p); }
    if h < u { MulLt(h, u, p); }
  }

  function Below(ones: nat): nat { if ones < 8 then 0 else ones - 8 }

  function LowByte(x: bv8, ones: nat): bv8 { x & PrefixByte(ones) }
  function HighByte(x: bv8, ones: nat): bv8 { LowByte(x, ones) | !PrefixByte(ones) }

  // First and last address of the block of b with a prefix of that many bits, as numbers.
  function Low(b: Bytes, ones: nat): nat {
    if b == [] then 0
    else (LowByte(b[0], ones) as nat) * Pow256(|b| - 1) + Low(b[1..], Below(ones))
  }

  function High(b: Bytes, ones: nat): nat {
    if b == [] then 0
    else (HighByte(b[0], ones) as nat) * Pow256(|b| - 1) + High(b[1..], Below(ones))
  }

  predicate Agree(a: Bytes, b: Bytes, ones: nat)
    requires |a| == |b|
  {
    a == [] || (LowByte(a[0], ones) == LowByte(b[0], ones) && Agree(a[1..], b[1..], Below(ones)))
  }

  lemma ValueCons(x: bv8, t: Bytes)
    ensures Value([x] + t) == (x as nat) * Pow256(|t|) + Value(t)
  {
    var b := [x] + t;
    assert b[0] == x && b[1..] == t && |b| - 1 == |t|;
  }

  lemma MaskStep(ones: nat, size: nat)
    requires size > 0
    ensures CIDRMask(ones, size)[0] == PrefixByte(ones)
    ensures CIDRMask(ones, size)[1..] == CIDRMask(Below(ones), size - 1)
  {
  }

  lemma MaskedStep(b: Bytes, m: Bytes)
    requires |b| == |m| > 0
    ensures Masked(b, m) == [b[0] & m[0]] + Masked(b[1..], m[1..])
  {
  }

  lemma RangeEndStep(x: bv8, t: Bytes, m: Bytes)
    requires |t| + 1 == |m|
    ensures RangeEnd([x] + t, m) == [x | !m[0]] + RangeEnd(t, m[1..])
  {
    assert ([x] + t)[1..] == t;
  }

  lemma RangeOfMaskedStep(b: Bytes, m: Bytes)
    requires |b| == |m| > 0
    ensures RangeEnd(Masked(b, m), m) ==
            [(b[0] & m[0]) | !m[0]] + RangeEnd(Masked(b[1..], m[1..]), m[1..])
  {
    MaskedStep(b, m);
    RangeEndStep(b[0] & m[0], Masked(b[1..], m[1..]), m);
  }

  // The masked address and the end of its range, as the code builds them, have those values.
  lemma {:induction false} LowValue(b: Bytes, ones: nat, m: Bytes)
    requires m == CIDRMask(ones, |b|)
    ensures Value(Masked(b, m)) == Low(b, ones)
  {
    if b != [] {
      MaskStep(ones, |b|);
      LowValue(b[1..], Below(ones), m[1..]);
      MaskedStep(b, m);
      ValueCons(b[0] & m[0], Masked(b[1..], m[1..]));
    }
  }

  lemma {:induction false} HighValue(b: Bytes, ones: nat, m: Bytes)
    requires m == CIDRMask(ones, |b|)
    ensures Value(RangeEnd(Masked(b, m), m)) == High(b, ones)
  {
    if b != [] {
      MaskStep(ones, |b|);
      HighValue(b[1..], Below(ones), m[1..]);
      RangeOfMaskedStep(b, m);
      ValueCons((b[0] & m[0]) | !m[0], RangeEnd(Masked(b[1..], m[1..]), m[1..]));
    }
  }

  lemma SameUnderStep(a: Bytes, b: Bytes, m: Bytes, x: bv8)
    requires |a| == |b| == |m| > 0 && m[0] == x
    ensures SameUnder(a, b, m) <==> a[0] & x == b[0] & x && SameUnder(a[1..], b[1..], m[1..])
  {
  }

  lemma AgreeStep(a: Bytes, b: Bytes, ones: nat, x: bv8)
    requires |a| == |b| > 0 && PrefixByte(ones) == x
    ensures Agree(a, b, ones) <==> a[0] & x == b[0] & x && Agree(a[1..], b[1..], Below(ones))
  {
  }

  lemma {:induction false} SameUnderIsAgree(a: Bytes, b: Bytes, ones: nat, m: Bytes)
    requires |a| == |b| && m == CIDRMask(ones, |b|)
    ensures SameUnder(a, b, m) <==> Agree(a, b, ones)
  {
    if b != [] {
      MaskStep(ones, |b|);
      var x := m[0];
      assert x == PrefixByte(ones);
      SameUnderIsAgree(a[1..], b[1..], Below(ones), m[1..]);
      SameUnderStep(a, b, m, x);
      AgreeStep(a, b, ones, x);
    }
  }

  lemma BitInterval(a: bv8, b: bv8, ones: nat)
    ensures LowByte(a, ones) == LowByte(b, ones) <==> LowByte(b, ones) <= a <= HighByte(b, ones)
    ensures LowByte(b, ones) <= HighByte(b, ones)
    ensures ones >= 8 ==> LowByte(b, ones) == b == HighByte(b, ones)
    ensures ones < 8 ==> LowByte(b, ones) != HighByte(b, ones)
  {
  }

  lemma Distinct(x: bv8, y: bv8)
    ensures x as nat == y as nat <==> x == y
    ensures x as nat <= y as nat <==> x <= y
  {
    if x != y { assert x < y || y < x; }
  }

  lemma ByteInterval(a: bv8, b: bv8, ones: nat)
    ensures LowByte(a, ones) == LowByte(b, ones) <==>
            LowByte(b, ones) as nat <= a as nat <= HighByte(b, ones) as nat
    ensures LowByte(b, ones) as nat <= HighByte(b, ones) as nat
  {
    BitInterval(a, b, ones);
    Distinct(LowByte(b, ones), a);
    Distinct(a, HighByte(b, ones));
    Distinct(LowByte(b, ones), HighByte(b, ones));
  }

  lemma GapSize(ones: nat)
    requires ones <= 8
    ensures (!PrefixByte(ones)) as nat + 1 == Pow2(8 - ones)
  {
    assert Pow2(3) == 8 && Pow2(6) == 64;
  }

  lemma LowHasNoGap(b: bv8, m: bv8)
    ensures (b & m) & !m == 0
  {
  }

  lemma ByteSize(b: bv8, ones: nat)
    requires ones <= 8
    ensures HighByte(b, ones) as nat - LowByte(b, ones) as nat + 1 == Pow2(8 - ones)
  {
    GapSize(ones);
    LowHasNoGap(b, PrefixByte(ones));
    DisjointBits(LowByte(b, ones), !PrefixByte(ones));
  }

  lemma DisjointBits(x: bv8, y: bv8)
    requires x & y == 0
    ensures (x | y) as nat == x as nat + y as nat
  {
  }

  lemma {:induction false} Bounds(b: Bytes, ones: nat)
    ensures Value(b) < Pow256(|b|) && Low(b, ones) < Pow256(|b|) && High(b, ones) < Pow256(|b|)
  {
    if b != [] {
      var p := Pow256(|b| - 1);
      Bounds(b[1..], Below(ones));
      MulLe(b[0] as nat, 255, p);
      MulLe(LowByte(b[0], ones) as nat, 255, p);
      MulLe(HighByte(b[0], ones) as nat, 255, p);
    }
  }

  // With no prefix bits the range is everything of that width.
  lemma {:induction false} FullRange(b: Bytes)
    ensures Low(b, 0) == 0 && High(b, 0) == Pow256(|b|) - 1
  {
    if b != [] {
      FullRange(b[1..]);
      assert LowByte(b[0], 0) == 0 && HighByte(b[0], 0) == 255;
    }
  }

  lemma {:induction false} AllAgree(a: Bytes, b: Bytes)
    requires |a| == |b|
    ensures Agree(a, b, 0)
  {
    if a != [] {
      AllAgree(a[1..], b[1..]);
      assert LowByte(a[0], 0) == 0 == LowByte(b[0], 0);
    }
  }

  // RFC 4632, section 3.1: an address agrees with the network on the prefix bits
  // exactly when it lies in the numeric interval.
  lemma {:induction false} AgreeIsInterval(a: Bytes, b: Bytes, ones: nat)
    requires |a| == |b|
    ensures Agree(a, b, ones) <==> Low(b, ones) <= Value(a) <= High(b, ones)
  {
    if b != [] {
      var at, bt, rest := a[1..], b[1..], Below(ones);
      ByteInterval(a[0], b[0], ones);
      BitInterval(a[0], b[0], ones);
      Bounds(at, rest);
      Bounds(bt, rest);
      if ones < 8 {
        FullRange(bt);
        AllAgree(at, bt);
        Distinct(LowByte(b[0], ones), HighByte(b[0], ones));
      } else {
        AgreeIsInterval(at, bt, rest);
        Distinct(a[0], b[0]);
      }
      Lexicographic(a[0] as nat, Value(at), LowByte(b[0], ones) as nat, Low(bt, rest),
                    HighByte(b[0], ones) as nat, High(bt, rest), Pow256(|b| - 1));
    }
  }

  // The interval of a /n block of w bits holds 2^(w-n) addresses.
  lemma {:induction false} IntervalSize(b: Bytes, ones: nat)
    requires ones <= 8 * |b|
    ensures High(b, ones) - Low(b, ones) + 1 == Pow2(8 * |b| - ones)
  {
    if b != [] {
      var l, u, p := LowByte(b[0], ones) as nat, HighByte(b[0], ones) as nat, Pow256(|b| - 1);
      ByteInterval(b[0], b[0], ones);
      BitInterval(b[0], b[0], ones);
      if ones >= 8 {
        IntervalSize(b[1..], ones - 8);
      } else {
        FullRange(b[1..]);
        ByteSize(b[0], ones);
        MulDiff(u, l, p);
        Pow2Split(8 - ones, |b| - 1);
      }
    }
  }

  lemma MulDiff(u: nat, l: nat, p: nat)
    requires l <= u
    ensures u * p - l * p + p == (u - l + 1) * p
  {
  }

  lemma {:induction false} Pow2Split(k: nat, n: nat)
    ensures Pow2(k) * Pow256(n) == Pow2(k + 8 * n)
  {
    if k > 0 {
      Pow2Split(k - 1, n);
      assert Pow2(k) * Pow256(n) == 2 * (Pow2(k - 1) * Pow256(n));
    } else if n > 0 {
      Pow2Split(0, n - 1);
      Double4(8 * (n - 1));
      Double4(8 * (n - 1) + 4);
    }
  }

  lemma Double4(n: nat)
    ensures Pow2(n + 4) == 16 * Pow2(n)
  {
    assert Pow2(n + 2) == 2 * Pow2(n + 1) == 4 * Pow2(n);
    assert Pow2(n + 4) == 2 * Pow2(n + 3);
  }

  // ---- What the printed field covers ----

  lemma AddrCharsNoDash(s: string)
    requires forall i :: 0 <= i < |s| ==> CidrChar(s[i])
    ensures ParseRange(s) == None
  {
    assert !CidrChar('-');
  }

  lemma IPHasNoSlash(s: string)
    requires ParseIP(s).Some?
    ensures ParseCIDR(s) == None
  {
    ParseIPChars(s);
    assert !AddrChar('/');
  }

  lemma PrintIPv4NoDash(b: Bytes)
    requires |b| == 4
    ensures Without(PrintIPv4(b), '-')
  {
    ParsePrintIPv4(b);
    ParseIPv4Chars(PrintIPv4(b));
    assert !AddrChar('-');
  }

  // The printed range reads back as its two ends.
  lemma ParsePrintRange(lo: Bytes, hi: Bytes)
    requires |lo| == 4 && |hi| == 4
    ensures ParseRange(PrintIPv4(lo) + "-" + PrintIPv4(hi)) == Some((lo, hi))
  {
    var l, h := PrintIPv4(lo), PrintIPv4(hi);
    PrintIPv4NoDash(lo);
    ParsePrintIPv4(lo);
    ParsePrintIPv4(hi);
    IndexAt(l, '-', h);
    assert (l + "-" + h)[..|l|] == l && (l + "-" + h)[|l| + 1..] == h;
  }

  lemma {:induction false} MaskAt(ones: nat, size: nat, i: nat)
    requires i < size
    ensures CIDRMask(ones, size)[i] == PrefixByte(if ones < 8 * i then 0 else ones - 8 * i)
  {
    if i > 0 { MaskAt(Below(ones), size - 1, i - 1); }
  }

  lemma {:induction false} MaskedAt(b: Bytes, m: Bytes, i: nat)
    requires i < |b| == |m|
    ensures Masked(b, m)[i] == b[i] & m[i]
  {
    if i > 0 { MaskedAt(b[1..], m[1..], i - 1); }
  }

  function PrefixLength(cidr: string): nat
    requires ParseCIDR(cidr).Some?
  {
    ParseNat(cidr[Index(cidr, '/').value + 1..]).value
  }

  // The one case in which the code reads the wrong mask bytes: an IPv4 block written
  // in IPv6 form, unless it is a single address. The loop indexes the 16-byte mask
  // with the positions of the 4-byte address.
  predicate TruncatesBlock(cidr: string) {
    IsMapped(cidr) && PrefixLength(cidr) < 128
  }

  predicate IsDotted(cidr: string) {
    match ParseCIDR(cidr) case None => false case Some(net) => |net.ip| == 4
  }

  predicate IsMapped(cidr: string) {
    match ParseCIDR(cidr) case None => false case Some(net) => |net.ip| == 16 && To4(net.ip).Some?
  }

  lemma CidrIsNotIP(cidr: string)
    requires ParseCIDR(cidr).Some?
    ensures ParseIP(cidr) == None
  {
    if ParseIP(cidr).Some? { IPHasNoSlash(cidr); }
  }

  // The address part of a CIDR, as written.
  function AddressPart(cidr: string): Bytes
    requires ParseCIDR(cidr).Some?
  {
    ParseIP(cidr[..Index(cidr, '/').value]).value
  }

  // The addresses of a dotted block form a numeric interval.
  lemma DottedMeaning(cidr: string, a: Bytes)
    requires IsDotted(cidr) && |Norm(a)| == 4
    ensures Denotes(cidr, a) <==>
            Low(AddressPart(cidr), PrefixLength(cidr)) <= Value(Norm(a)) <= High(AddressPart(cidr), PrefixLength(cidr))
  {
    var net, b := ParseCIDR(cidr).value, AddressPart(cidr);
    CidrIsNotIP(cidr);
    AgreeIsInterval(Norm(a), b, PrefixLength(cidr));
    SameUnderIsAgree(Norm(a), b, PrefixLength(cidr), net.mask);
    MaskedTwice(Norm(a), b, net.mask);
  }

  // The printed range of a dotted block has the ends of that interval.
  lemma DottedText(cidr: string)
    requires IsDotted(cidr)
    ensures ParseRange(RangeText(cidr)).Some?
    ensures Value(ParseRange(RangeText(cidr)).value.0) == Low(AddressPart(cidr), PrefixLength(cidr))
    ensures Value(ParseRange(RangeText(cidr)).value.1) == High(AddressPart(cidr), PrefixLength(cidr))
  {
    var net, b := ParseCIDR(cidr).value, AddressPart(cidr);
    ParsePrintRange(net.ip, RangeEnd(net.ip, net.mask));
    LowValue(b, PrefixLength(cidr), net.mask);
    HighValue(b, PrefixLength(cidr), net.mask);
  }

  lemma {:induction false} MaskedTwice(a: Bytes, b: Bytes, m: Bytes)
    requires |a| == |b| == |m|
    ensures SameUnder(a, Masked(b, m), m) <==> SameUnder(a, b, m)
  {
    if b != [] {
      MaskedStep(b, m);
      MaskedTwice(a[1..], b[1..], m[1..]);
      assert (b[0] & m[0]) & m[0] == b[0] & m[0];
    }
  }

  lemma DottedParts(cidr: string)
    requires IsDotted(cidr)
    ensures |AddressPart(cidr)| == 4 && PrefixLength(cidr) <= 32
  {
  }

  lemma FourByteInterval(b: Bytes, n: nat)
    requires |b| == 4 && n <= 32
    ensures High(b, n) - Low(b, n) + 1 == Pow2(32 - n)
  {
    IntervalSize(b, n);
  }

  // A dotted block of prefix length n prints 2^(32-n) addresses.
  lemma DottedRangeSize(cidr: string)
    requires IsDotted(cidr)
    ensures PrefixLength(cidr) <= 32 && ParseRange(RangeText(cidr)).Some?
    ensures Value(ParseRange(RangeText(cidr)).value.1) - Value(ParseRange(RangeText(cidr)).value.0) + 1 ==
            Pow2(32 - PrefixLength(cidr))
  {
    DottedParts(cidr);
    DottedText(cidr);
    FourByteInterval(AddressPart(cidr), PrefixLength(cidr));
  }

  // ---- IPv4 blocks written in IPv6 form ----

  lemma MaskDrop(ones: nat, size: nat, k: nat)
    requires k <= size && 8 * k <= ones
    ensures CIDRMask(ones, size)[k..] == CIDRMask(ones - 8 * k, size - k)
  {
    var a, b := CIDRMask(ones, size)[k..], CIDRMask(ones - 8 * k, size - k);
    forall i | 0 <= i < size - k ensures a[i] == b[i] { MaskShift(ones, size, k, i); }
  }

  lemma MaskShift(ones: nat, size: nat, k: nat, i: nat)
    requires k <= size && 8 * k <= ones && i < size - k
    ensures CIDRMask(ones, size)[k + i] == CIDRMask(ones - 8 * k, size - k)[i]
  {
    MaskAt(ones, size, k + i);
    MaskAt(ones - 8 * k, size - k, i);
  }

  lemma {:induction false} MaskedDrop(b: Bytes, m: Bytes, k: nat)
    requires k <= |b| == |m|
    ensures Masked(b, m)[k..] == Masked(b[k..], m[k..])
  {
    if k > 0 {
      MaskedStep(b, m);
      MaskedDrop(b[1..], m[1..], k - 1);
      assert Masked(b, m)[k..] == Masked(b[1..], m[1..])[k - 1..];
      assert b[1..][k - 1..] == b[k..] && m[1..][k - 1..] == m[k..];
    }
  }

  // Within the prefix the range ends where it starts.
  lemma {:induction false} RangeEndInPrefix(start: Bytes, ones: nat, size: nat)
    requires |start| <= size && 8 * |start| <= ones
    ensures RangeEnd(start, CIDRMask(ones, size)) == start
  {
    if start != [] {
      MaskStep(ones, size);
      RangeEndInPrefix(start[1..], ones - 8, size - 1);
      assert start[0] | !PrefixByte(ones) == start[0];
    }
  }

  // In IPv6 form a network is IPv4 only from prefix length 96 on: the bytes 0xff stay.
  lemma MappedPrefix(b: Bytes, ones: nat)
    requires |b| == 16 && To4(Masked(b, CIDRMask(ones, 16))).Some?
    ensures ones >= 96
  {
    var m := CIDRMask(ones, 16);
    MaskAt(ones, 16, 11);
    MaskedAt(b, m, 11);
    OnesOnly(b[11], if ones < 88 then 0 else ones - 88);
  }

  lemma OnesOnly(b: bv8, n: nat)
    ensures b & PrefixByte(n) == 0xFF ==> n >= 8
  {
  }

  // Such a network is the IPv4 block of b with a prefix of k = n - 96 bits.
  ghost predicate MappedBlock(cidr: string, b: Bytes, k: nat) {
    && IsMapped(cidr) && PrefixLength(cidr) == k + 96 && k <= 32 && |b| == 4
    && ParseCIDR(cidr).value.mask == CIDRMask(k + 96, 16)
    && ParseCIDR(cidr).value.mask[12..] == CIDRMask(k, 4)
    && ParseCIDR(cidr).value.ip[12..] == Masked(b, CIDRMask(k, 4))
  }

  // The parsed block, from its address and prefix length.
  lemma ParsedBlock(cidr: string)
    requires ParseCIDR(cidr).Some?
    ensures var b, n := AddressPart(cidr), PrefixLength(cidr);
            n <= 8 * |b| && ParseCIDR(cidr).value == IPNet(Masked(b, CIDRMask(n, |b|)), CIDRMask(n, |b|))
  {
  }

  lemma MappedBytes(b: Bytes, n: nat)
    requires |b| == 16 && n <= 128 && To4(Masked(b, CIDRMask(n, 16))).Some?
    ensures n >= 96 && CIDRMask(n, 16)[12..] == CIDRMask(n - 96, 4)
    ensures Masked(b, CIDRMask(n, 16))[12..] == Masked(b[12..], CIDRMask(n - 96, 4))
  {
    MappedPrefix(b, n);
    MaskDrop(n, 16, 12);
    MaskedDrop(b, CIDRMask(n, 16), 12);
  }

  lemma MappedBlockFrom(cidr: string, net: IPNet, address: Bytes, n: nat)
    requires ParseCIDR(cidr) == Some(net) && |net.ip| == 16 && To4(net.ip).Some? && PrefixLength(cidr) == n
    requires n <= 8 * |address| && net == IPNet(Masked(address, CIDRMask(n, |address|)), CIDRMask(n, |address|))
    ensures n >= 96 && |address| == 16 && MappedBlock(cidr, address[12..], n - 96)
  {
    MappedBytes(address, n);
  }

  lemma MappedNet(cidr: string) returns (net: IPNet)
    requires IsMapped(cidr)
    ensures ParseCIDR(cidr) == Some(net) && |net.ip| == 16 && To4(net.ip).Some?
  {
    net := ParseCIDR(cidr).value;
  }

  lemma MappedParts(cidr: string) returns (b: Bytes, k: nat)
    requires IsMapped(cidr)
    ensures MappedBlock(cidr, b, k)
  {
    var net := MappedNet(cidr);
    ParsedBlock(cidr);
    var address, n := AddressPart(cidr), PrefixLength(cidr);
    MappedBlockFrom(cidr, net, address, n);
    b, k := address[12..], n - 96;
  }

  lemma MappedText(cidr: string)
    requires IsMapped(cidr)
    ensures var net := ParseCIDR(cidr).value;
            RangeText(cidr) == PrintIPv4(net.ip[12..]) + "-" + PrintIPv4(RangeEnd(net.ip[12..], net.mask))
  {
  }

  // What the code prints for it: its first address only.
  lemma MappedRangeText(cidr: string, b: Bytes, k: nat)
    requires MappedBlock(cidr, b, k)
    ensures ParseRange(RangeText(cidr)) ==
            Some((ParseCIDR(cidr).value.ip[12..], ParseCIDR(cidr).value.ip[12..]))
  {
    MappedText(cidr);
    var start := ParseCIDR(cidr).value.ip[12..];
    RangeEndInPrefix(start, k + 96, 16);
    ParsePrintRange(start, start);
  }

  lemma MappedDenotes(cidr: string, a: Bytes)
    requires IsMapped(cidr)
    ensures Denotes(cidr, a) <==>
            |Norm(a)| == 4 && SameUnder(Norm(a), ParseCIDR(cidr).value.ip[12..], ParseCIDR(cidr).value.mask[12..])
  {
    CidrIsNotIP(cidr);
  }

  // Printed and meant, side by side: the first address, and the whole block.
  lemma MappedRange(cidr: string, a: Bytes, b: Bytes, k: nat)
    requires MappedBlock(cidr, b, k)
    ensures Covers(RangeText(cidr), a) <==> |Norm(a)| == 4 && Value(Norm(a)) == Low(b, k)
    ensures Denotes(cidr, a) <==> |Norm(a)| == 4 && Low(b, k) <= Value(Norm(a)) <= High(b, k)
  {
    MappedRangeText(cidr, b, k);
    LowValue(b, k, CIDRMask(k, 4));
    MappedDenotes(cidr, a);
    if |Norm(a)| == 4 {
      AgreeIsInterval(Norm(a), b, k);
      SameUnderIsAgree(Norm(a), b, k, CIDRMask(k, 4));
      MaskedTwice(Norm(a), b, CIDRMask(k, 4));
    }
  }

  lemma {:induction false} PowPositive(n: nat)
    ensures Pow2(n) >= 1 && (n > 0 ==> Pow2(n) >= 2)
  {
    if n > 0 { PowPositive(n - 1); }
  }

  // The last address of a block in IPv6 form is lost whenever the block has two or more.
  lemma MappedRangeLoses(cidr: string) returns (a: Bytes)
    requires TruncatesBlock(cidr)
    ensures Denotes(cidr, a) && !Covers(RangeText(cidr), a)
  {
    var b, k := MappedParts(cidr);
    a := RangeEnd(Masked(b, CIDRMask(k, 4)), CIDRMask(k, 4));
    HighValue(b, k, CIDRMask(k, 4));
    IntervalSize(b, k);
    PowPositive(32 - k);
    MappedRange(cidr, a, b, k);
  }

  // The field covers exactly the addresses of the rule, for every text the validation
  // accepts and every address, if and only if the block is not one that is truncated.
  lemma RangeExactIff(cidr: string)
    requires Accepted(cidr)
    ensures (forall a :: Covers(RangeText(cidr), a) <==> Denotes(cidr, a)) <==> !TruncatesBlock(cidr)
  {
    if TruncatesBlock(cidr) {
      var a := MappedRangeLoses(cidr);
    } else {
      forall a ensures Covers(RangeText(cidr), a) <==> Denotes(cidr, a) {
        RangeExact(cidr, a);
      }
    }
  }

  lemma RangeExact(cidr: string, a: Bytes)
    requires Accepted(cidr) && !TruncatesBlock(cidr)
    ensures Covers(RangeText(cidr), a) <==> Denotes(cidr, a)
  {
    if IsDotted(cidr) {
      DottedText(cidr);
      CidrIsNotIP(cidr);
      if |Norm(a)| == 4 { DottedMeaning(cidr, a); }
    } else if IsMapped(cidr) {
      var b, k := MappedParts(cidr);
      MappedRange(cidr, a, b, k);
      IntervalSize(b, k);
    } else if ParseCIDR(cidr).Some? {
      ParseCIDRChars(cidr);
      AddrCharsNoDash(cidr);
    } else {
      ParseIPChars(cidr);
      AddrCharsNoDash(cidr);
    }
  }

  lemma {:induction false} HexRunAt(s: string, n: nat)
    requires n < |s| && (forall i :: 0 <= i < n ==> HexValue(s[i]) >= 0) && HexValue(s[n]) < 0
    ensures HexRun(s) == n
  {
    if n > 0 { HexRunAt(s[1..], n - 1); }
  }

  lemma GroupStep(s: string, off: nat, got: Bytes, gap: Option<nat>)
    requires gap.Some? ==> gap.value <= |got|
    requires |got| < 14 && 0 < off <= 4 && off + 1 < |s|
    requires HexRun(s) == off && s[off] == ':' && s[off + 1] != ':'
    ensures ParseGroups(s, got, gap) == ParseGroups(s[off + 1..], got + Group(s[..off]), gap)
  {
  }

  lemma DottedStep(s: string, off: nat, got: Bytes, gap: nat)
    requires gap <= |got| <= 12
    requires 0 < off <= 4 && off < |s| && HexRun(s) == off && s[off] == '.'
    requires ParseIPv4(s).Some?
    ensures ParseGroups(s, got, Some(gap)) == Some((got + ParseIPv4(s).value, Some(gap)))
  {
  }

  // A dotted address starts with one to three digits and a dot.
  lemma DottedHead(s: string) returns (off: nat)
    requires ParseIPv4(s).Some?
    ensures 0 < off <= 3 && off < |s| && HexRun(s) == off && s[off] == '.' && s[0] != ':'
  {
    var f := Split(s, '.');
    JoinSplit(s, '.');
    JoinFour(f);
    ParseNatChars(f[0]);
    off := |f[0]|;
    assert s == f[0] + ("." + f[1] + "." + f[2] + "." + f[3]);
    forall i | 0 <= i < off ensures HexValue(s[i]) >= 0 { assert s[i] == f[0][i]; }
    HexRunAt(s, off);
  }

  lemma Ffff(s: string)
    requires s == "ffff"
    ensures Group(s) == [0xFF, 0xFF]
  {
    var a, b, c := s[..3], s[..2], s[..1];
    assert a[..2] == b && b[..1] == c && c[..0] == "";
    assert HexNumber(c) == 15;
    assert HexNumber(b) == 255;
    assert HexNumber(a) == 4095;
  }

  lemma FfffHead(dotted: string)
    requires dotted != "" && dotted[0] != ':'
    ensures ParseGroups("ffff:" + dotted, [], Some(0)) == ParseGroups(dotted, [0xFF, 0xFF], Some(0))
  {
    var s := "ffff:" + dotted;
    HexRunAt(s, 4);
    assert s[..4] == "ffff" && s[5..] == dotted;
    Ffff(s[..4]);
    GroupStep(s, 4, [], Some(0));
    assert [] + [0xFF as bv8, 0xFF] == [0xFF, 0xFF];
  }

  lemma LeadingGap(s: string)
    requires s != ""
    ensures ParseIP("::" + s) == Expand(ParseGroups(s, [], Some(0)))
  {
    var t := "::" + s;
    assert t == "" + [':'] + (":" + s);
    IndexAt("", ':', ":" + s);
    assert t[..2] == "::" && t[2..] == s && t != "::";
  }

  // After "::ffff:" a dotted address gives its IPv4-mapped form.
  lemma MappedAddress(dotted: string)
    requires ParseIPv4(dotted).Some?
    ensures ParseIP("::" + ("ffff:" + dotted)) == Some(Zeros(10) + ([0xFF, 0xFF] + ParseIPv4(dotted).value))
  {
    var off := DottedHead(dotted);
    FfffHead(dotted);
    DottedStep(dotted, off, [0xFF, 0xFF], 0);
    LeadingGap("ffff:" + dotted);
    ExpandMapped([0xFF, 0xFF] + ParseIPv4(dotted).value);
  }

  lemma ExpandMapped(got: Bytes)
    requires |got| == 6
    ensures Expand(Some((got, Some(0)))) == Some(Zeros(10) + got)
  {
    assert got[..0] == [] && got[0..] == got;
    assert [] + Zeros(10) + got == Zeros(10) + got;
  }

  lemma WithPrefix(s: string, digits: string, n: nat)
    requires ParseIP(s).Some? && ParseNat(digits) == Some(n) && n <= 8 * |ParseIP(s).value|
    ensures ParseCIDR(s + "/" + digits).Some? && PrefixLength(s + "/" + digits) == n
    ensures var b := ParseIP(s).value; var m := CIDRMask(n, |b|);
            ParseCIDR(s + "/" + digits).value == IPNet(Masked(b, m), m)
  {
    ParseIPChars(s);
    assert !AddrChar('/');
    IndexAt(s, '/', digits);
    assert (s + "/" + digits)[..|s|] == s && (s + "/" + digits)[|s| + 1..] == digits;
  }

  lemma MappedStays(v4: Bytes, n: nat)
    requires |v4| == 4 && n >= 96
    ensures To4(Masked(Zeros(10) + ([0xFF, 0xFF] + v4), CIDRMask(n, 16))).Some?
  {
    var b, m := Zeros(10) + ([0xFF, 0xFF] + v4), CIDRMask(n, 16);
    var r := Masked(b, m);
    forall i | 0 <= i < 12 ensures r[i] == b[i] {
      MaskedAt(b, m, i);
      MaskAt(n, 16, i);
      assert b[i] & 0xFF == b[i];
    }
    assert r[..10] == Zeros(10);
  }

  // The flaw on text: every dotted address after "::ffff:", with a prefix length from
  // 96 to 127, is a block of which only the first address is printed.
  lemma TruncatedFamily(dotted: string, digits: string, n: nat)
    requires ParseIPv4(dotted).Some? && ParseNat(digits) == Some(n) && 96 <= n < 128
    ensures TruncatesBlock("::" + ("ffff:" + dotted) + "/" + digits)
  {
    MappedAddress(dotted);
    WithPrefix("::" + ("ffff:" + dotted), digits, n);
    MappedStays(ParseIPv4(dotted).value, n);
  }

  // For one: 10.0.0.0/8 written as ::ffff:10.0.0.0/104.
  lemma TruncatedExample() returns (lost: Bytes)
    ensures var cidr := "::" + ("ffff:" + PrintIPv4([10, 0, 0, 0])) + "/" + PrintNat(104);
            Accepted(cidr) && Denotes(cidr, lost) && !Covers(RangeText(cidr), lost)
  {
    ParsePrintIPv4([10, 0, 0, 0]);
    ParsePrintNat(104);
    TruncatedFamily(PrintIPv4([10, 0, 0, 0]), PrintNat(104), 104);
    lost := MappedRangeLoses("::" + ("ffff:" + PrintIPv4([10, 0, 0, 0])) + "/" + PrintNat(104));
  }
}
