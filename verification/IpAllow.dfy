/** ip_allow.yaml: its generator, a parser for it, and which clients it lets in. */
module IpAllow {
  import opened Text
  import opened NetAddr
  import opened CidrRange
  import opened Rules
  import opened Sorting
  import opened Matching
  import opened ParentConfig

  datatype Block = Block(addrs: string, allow: bool)

  const Header := "ip_allow:"
  const ApplyLine := "  - apply: in"
  const AddrsStart := "    ip_addrs: "
  const AllowLine := "    action: set_allow"
  const DenyLine := "    action: set_deny"
  const MethodsLine := "    methods: ALL"

  function ActionLine(allow: bool): string { if allow then AllowLine else DenyLine }

  const BlockLines: Block -> seq<string> :=
    (b: Block) => [ApplyLine, AddrsStart + b.addrs, ActionLine(b.allow), MethodsLine]

  // Anything but deny allows; the validation lets only allow and deny through.
  const AclBlock: ClientACLRule -> seq<Block> := (r: ClientACLRule) => [Block(r.cidr, r.action != "deny")]

  function DenyAll(): seq<Block> { [Block("0/0", false), Block("::/0", false)] }

  function Blocks(acl: seq<ClientACLRule>): seq<Block> { FlatMap(AclBlock, acl) + DenyAll() }

  function BlocksText(bs: seq<Block>): string { Unlines([Header] + FlatMap(BlockLines, bs)) }

  function AllowText(acl: seq<ClientACLRule>): string { BlocksText(Blocks(acl)) }

  function BlockText(addrs: string, action: string): string {
    ApplyLine + "\n" + (AddrsStart + addrs + "\n") + (action + "\n") + (MethodsLine + "\n")
  }

  lemma FourLines(ls: seq<string>)
    requires |ls| == 4
    ensures Unlines(ls) == ls[0] + "\n" + (ls[1] + "\n") + (ls[2] + "\n") + (ls[3] + "\n")
  {
    assert Unlines(ls[..0]) == "" && ls[..4] == ls;
    UnlinesSnoc(ls, 0);
    UnlinesSnoc(ls, 1);
    UnlinesSnoc(ls, 2);
    UnlinesSnoc(ls, 3);
    assert "" + (ls[0] + "\n") == ls[0] + "\n";
  }

  lemma OneBlock(b: Block)
    ensures Unlines(BlockLines(b)) == BlockText(b.addrs, ActionLine(b.allow))
  {
    FourLines(BlockLines(b));
  }

  lemma GrowBlocks(bs: seq<Block>, b: Block)
    ensures BlocksText(bs + [b]) == BlocksText(bs) + Unlines(BlockLines(b))
  {
    var ls := FlatMap(BlockLines, bs);
    FlatMapAppend(BlockLines, bs, [b]);
    FlatMapOne(BlockLines, b);
    UnlinesAppend([Header] + ls, BlockLines(b));
    assert [Header] + (ls + BlockLines(b)) == [Header] + ls + BlockLines(b);
  }

  method GenerateIPAllowYaml(acl: array<ClientACLRule>) returns (text: string)
    modifies acl
    ensures SortOf(acl[..], old(acl[..]), AclPriority)
    ensures text == AllowText(acl[..])
  {
    SortSlice(acl, AclPriority);
    text := WriteBlocks(acl);
    var user := FlatMap(AclBlock, acl[..]);
    text := WriteBlock(text, "0/0", DenyLine, user, false);
    text := WriteBlock(text, "::/0", DenyLine, user + [Block("0/0", false)], false);
    assert user + [Block("0/0", false)] + [Block("::/0", false)] == user + DenyAll();
  }

  method WriteBlock(b: string, addrs: string, action: string, ghost bs: seq<Block>, ghost allow: bool) returns (text: string)
    requires b == BlocksText(bs) && action == ActionLine(allow)
    ensures text == BlocksText(bs + [Block(addrs, allow)])
  {
    GrowBlocks(bs, Block(addrs, allow));
    OneBlock(Block(addrs, allow));
    text := b + BlockText(addrs, action);
  }

  method WriteBlocks(acl: array<ClientACLRule>) returns (text: string)
    ensures text == BlocksText(FlatMap(AclBlock, acl[..]))
  {
    text := Header + "\n";
    assert [Header] + [] == [Header];
    assert Unlines([Header]) == Header + "\n" + "";
    for i := 0 to acl.Length
      invariant text == BlocksText(FlatMap(AclBlock, acl[..i]))
    {
      var action := AllowLine;
      if acl[i].action == "deny" {
        action := DenyLine;
      }
      assert acl[..][..i] == acl[..i] && acl[..][..i + 1] == acl[..i + 1];
      FlatMapSnoc(AclBlock, acl[..], i);
      text := WriteBlock(text, acl[i].cidr, action, FlatMap(AclBlock, acl[..i]), acl[i].action != "deny");
    }
    assert acl[..acl.Length] == acl[..];
  }

  // ---- Reading the file back: by the words of the format, not those of the generator ----

  function ParseAction(line: string): Option<bool> {
    if line == "    action: set_allow" then Some(true)
    else if line == "    action: set_deny" then Some(false)
    else None
  }

  function ParseAddrs(line: string): Option<string> {
    if HasPrefix(line, "    ip_addrs: ") then Some(line[14..]) else None
  }

  function ParseBlock(ls: seq<string>): Option<Block>
    requires |ls| == 4
  {
    if ls[0] != "  - apply: in" || ls[3] != "    methods: ALL" then None
    else match (ParseAddrs(ls[1]), ParseAction(ls[2]))
      case (Some(addrs), Some(allow)) => Some(Block(addrs, allow))
      case _ => None
  }

  function ParseBlocks(ls: seq<string>): Option<seq<Block>> {
    if ls == [] then Some([])
    else if |ls| < 4 then None
    else match (ParseBlock(ls[..4]), ParseBlocks(ls[4..]))
      case (Some(b), Some(bs)) => Some([b] + bs)
      case _ => None
  }

  function ParseAllow(text: string): Option<seq<Block>> {
    match Lines(text)
    case None => None
    case Some(ls) => if ls == [] || ls[0] != "ip_allow:" then None else ParseBlocks(ls[1..])
  }

  lemma ActionBack(allow: bool)
    ensures ParseAction(ActionLine(allow)) == Some(allow) && Without(ActionLine(allow), '\n')
  {
    assert "    action: set_allow"[17] != "    action: set_deny"[17];
  }

  lemma AddrsBack(addrs: string)
    requires Without(addrs, '\n')
    ensures ParseAddrs(AddrsStart + addrs) == Some(addrs) && Without(AddrsStart + addrs, '\n')
  {
  }

  lemma FixedOneLine()
    ensures Without(ApplyLine, '\n') && Without(MethodsLine, '\n')
  {
  }

  lemma BlockBack(b: Block)
    requires Without(b.addrs, '\n')
    ensures ParseBlock(BlockLines(b)) == Some(b) && OneLiners(BlockLines(b))
  {
    ActionBack(b.allow);
    AddrsBack(b.addrs);
    FixedOneLine();
  }

  lemma {:induction false} BlocksBack(bs: seq<Block>)
    requires forall b :: b in bs ==> Without(b.addrs, '\n')
    ensures ParseBlocks(FlatMap(BlockLines, bs)) == Some(bs) && OneLiners(FlatMap(BlockLines, bs))
  {
    if bs != [] {
      BlocksBack(bs[1..]);
      BlockBack(bs[0]);
      var ls, tail := FlatMap(BlockLines, bs), FlatMap(BlockLines, bs[1..]);
      assert ls == BlockLines(bs[0]) + tail;
      assert ls[..4] == BlockLines(bs[0]) && ls[4..] == tail;
      assert bs == [bs[0]] + bs[1..];
    }
  }

  lemma BlocksPlain(acl: seq<ClientACLRule>)
    requires forall r :: r in acl ==> ValidAcl(r)
    ensures forall b :: b in Blocks(acl) ==> Without(b.addrs, '\n')
  {
    forall b | b in FlatMap(AclBlock, acl) ensures Without(b.addrs, '\n') {
      FlatMapFrom(AclBlock, acl, b);
      var r :| r in acl && b in AclBlock(r);
      assert ValidAcl(r);
      CidrPlain(r.cidr);
    }
  }

  // The file reads back as the rules in order, closed by the two catch-all blocks.
  lemma ParseAllowText(acl: seq<ClientACLRule>)
    requires forall r :: r in acl ==> ValidAcl(r)
    ensures ParseAllow(AllowText(acl)) == Some(Blocks(acl))
    ensures OneLiners([Header] + FlatMap(BlockLines, Blocks(acl)))
  {
    BlocksPlain(acl);
    BlocksBack(Blocks(acl));
    var ls := [Header] + FlatMap(BlockLines, Blocks(acl));
    assert Without(Header, '\n');
    LinesUnlines(ls);
    assert ls[1..] == FlatMap(BlockLines, Blocks(acl));
  }

  // ---- What it means ----

  // 0/0 is every IPv4 client; other texts denote what they denote everywhere.
  predicate Includes(addrs: string, a: Bytes) {
    if addrs == "0/0" then |Norm(a)| == 4 else Denotes(addrs, a)
  }

  function Catches(a: Bytes): Block -> bool { (b: Block) => Includes(b.addrs, a) }

  // The first matching block decides.
  function Admits(bs: seq<Block>, a: Bytes): Option<bool> {
    match First(bs, Catches(a)) case None => None case Some(b) => Some(b.allow)
  }

  function AclHit(a: Bytes): ClientACLRule -> bool { (r: ClientACLRule) => Denotes(r.cidr, a) }

  // What the rules ask: the best matching rule decides, and nobody else gets in.
  ghost predicate ReferenceAccess(acl: seq<ClientACLRule>, a: Bytes, allow: bool) {
    if AnyHit(acl, AclHit(a)) then exists w :: Best(acl, w, AclHit(a), AclPriority) && allow == (w.action == "allow")
    else !allow
  }

  lemma AccessIsUnique(acl: seq<ClientACLRule>, a: Bytes, x: bool, y: bool)
    requires DistinctKeys(acl, AclPriority)
    requires ReferenceAccess(acl, a, x) && ReferenceAccess(acl, a, y)
    ensures x == y
  {
    if AnyHit(acl, AclHit(a)) { BestIsUnique(acl, AclHit(a), AclPriority); }
  }

  lemma ZeroFourIsNoCidr()
    ensures !Accepted("0/0")
  {
    IndexAt("0", '/', "0");
    assert "0" + ['/'] + "0" == "0/0" && "0/0"[..1] == "0";
    assert Index("0", '.') == None && Index("0", ':') == None;
  }

  lemma {:induction false} ZeroMask(n: nat)
    ensures CIDRMask(0, n) == Zeros(n)
  {
    if n > 0 {
      ZeroMask(n - 1);
      assert Zeros(n) == [0] + Zeros(n - 1);
    }
  }

  lemma {:induction false} AgreeOnNothing(a: Bytes, b: Bytes)
    requires |a| == |b|
    ensures SameUnder(a, b, Zeros(|a|))
  {
    if a != [] {
      assert Zeros(|a|)[1..] == Zeros(|a| - 1);
      AgreeOnNothing(a[1..], b[1..]);
      assert a[0] & 0 == b[0] & 0;
    }
  }

  lemma AnyIPv6()
    ensures ParseIP("::") == Some(Zeros(16)) && ParseNat("0") == Some(0)
  {
    assert Index("::", ':') == Some(0) && Index("::", '.') == None;
  }

  lemma {:induction false} MaskedZeros(m: Bytes)
    ensures Masked(Zeros(|m|), m) == Zeros(|m|)
  {
    if m != [] {
      MaskedZeros(m[1..]);
      assert Zeros(|m|)[1..] == Zeros(|m| - 1);
      assert 0 & m[0] == 0;
      assert Zeros(|m|) == [0] + Zeros(|m| - 1);
    }
  }

  lemma AnySix(a: Bytes)
    requires |Norm(a)| == 16
    ensures Contains(IPNet(Zeros(16), Zeros(16)), a)
  {
    AgreeOnNothing(Norm(a), Zeros(16));
    assert Zeros(16)[10] != 0xFF;
  }

  lemma SixBlock(cidr: string)
    requires cidr == "::" + "/" + "0"
    ensures ParseCIDR(cidr) == Some(IPNet(Zeros(16), Zeros(16)))
  {
    AnyIPv6();
    WithPrefix("::", "0", 0);
    MaskedZeros(CIDRMask(0, 16));
    ZeroMask(16);
  }

  lemma BlockDenotes(cidr: string, net: IPNet, a: Bytes)
    requires ParseCIDR(cidr) == Some(net) && Contains(net, a)
    ensures Denotes(cidr, a)
  {
    CidrIsNotIP(cidr);
  }

  lemma CatchAllSix(cidr: string, a: Bytes)
    requires |Norm(a)| == 16 && cidr == "::" + "/" + "0"
    ensures Denotes(cidr, a)
  {
    SixBlock(cidr);
    AnySix(a);
    BlockDenotes(cidr, IPNet(Zeros(16), Zeros(16)), a);
  }

  // Every client matches one of the two closing blocks and is denied there.
  lemma ClosingDenies(a: Bytes)
    requires IsAddr(a)
    ensures Admits(DenyAll(), a) == Some(false)
  {
    if |Norm(a)| == 4 {
    } else {
      CatchAllSix(DenyAll()[1].addrs, a);
    }
  }

  lemma AclPrints(r: ClientACLRule, a: Bytes)
    requires ValidAcl(r)
    ensures Prints(AclBlock, r, Catches(a), AclHit(a))
    ensures AclBlock(r)[0].allow == (r.action == "allow")
  {
    ZeroFourIsNoCidr();
  }

  // The file admits a client exactly as the rules ask, in any order of tied rows.
  lemma AccessPreserved(rows: seq<ClientACLRule>, acl: seq<ClientACLRule>, a: Bytes) returns (bs: seq<Block>, allow: bool)
    requires IsAddr(a) && (forall r :: r in rows ==> ValidAcl(r)) && SortOf(acl, rows, AclPriority)
    ensures ParseAllow(AllowText(acl)) == Some(bs)
    ensures Admits(bs, a) == Some(allow) && ReferenceAccess(rows, a, allow)
  {
    SameElements(acl, rows);
    ParseAllowText(acl);
    bs := Blocks(acl);
    forall r | r in acl ensures Prints(AclBlock, r, Catches(a), AclHit(a)) { AclPrints(r, a); }
    FirstIsBest(acl, AclBlock, Catches(a), AclHit(a), AclPriority, DenyAll());
    BestPermutes(rows, acl, AclHit(a), AclPriority);
    ClosingDenies(a);
    if AnyHit(acl, AclHit(a)) {
      var w :| Best(acl, w, AclHit(a), AclPriority) && |AclBlock(w)| == 1 && First(bs, Catches(a)) == Some(AclBlock(w)[0]);
      AclPrints(w, a);
      assert Best(rows, w, AclHit(a), AclPriority);
      allow := w.action == "allow";
    } else {
      allow := false;
    }
  }
}
