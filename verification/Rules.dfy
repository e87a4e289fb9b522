/** Rule rows and their validation (validateRules, validateCIDR). */
module Rules {
  import opened Text
  import opened NetAddr
  import opened CidrRange

  // Actions are free text until validated, as in the JSON request.
  datatype DomainRule = DomainRule(domain: string, action: string, priority: int)
  datatype IPRangeRule = IPRangeRule(cidr: string, action: string, priority: int)
  datatype ParentProxy = ParentProxy(address: string, port: int, priority: int, enabled: bool)
  datatype ClientACLRule = ClientACLRule(cidr: string, action: string, priority: int)

  datatype RuleSet = RuleSet(
    defaultAction: string,
    domains: seq<DomainRule>,
    ipRanges: seq<IPRangeRule>,
    parents: seq<ParentProxy>,
    acl: seq<ClientACLRule>)

  const DomainPriority: DomainRule -> int := (d: DomainRule) => d.priority
  const IpPriority: IPRangeRule -> int := (r: IPRangeRule) => r.priority
  const ParentPriority: ParentProxy -> int := (p: ParentProxy) => p.priority
  const AclPriority: ClientACLRule -> int := (a: ClientACLRule) => a.priority

  predicate RuleAction(a: string) { a == "direct" || a == "parent" }
  predicate ACLAction(a: string) { a == "allow" || a == "deny" }

  // ---- The domain pattern: an optional "*." and at least two host name labels ----

  predicate IsAlnum(c: char) {
    'a' <= c <= 'z' || 'A' <= c <= 'Z' || IsDigit(c)
  }

  predicate IsLabel(s: string) {
    && s != "" && IsAlnum(s[0]) && IsAlnum(s[|s| - 1])
    && forall i :: 0 <= i < |s| ==> IsAlnum(s[i]) || s[i] == '-'
  }

  function Host(domain: string): string {
    if HasPrefix(domain, "*.") then domain[2..] else domain
  }

  predicate IsDomain(domain: string) {
    var labels := Split(Host(domain), '.');
    |labels| >= 2 && forall l :: l in labels ==> IsLabel(l)
  }

  // ---- What each section demands ----

  predicate IsZero(b: Bytes) { To4(b) == Some(Zeros(4)) }

  // ip_ranges: any address or block but one whose address is 0.0.0.0
  predicate ValidCidr(cidr: string) {
    match ParseIP(cidr)
    case Some(ip) => !IsZero(ip)
    case None =>
      match ParseCIDR(cidr)
      case Some(net) => !IsZero(net.ip)
      case None => false
  }

  // client_acl: only the literal text "0.0.0.0" is refused among bare addresses
  predicate ValidAclCidr(cidr: string) {
    match ParseIP(cidr)
    case Some(_) => cidr != "0.0.0.0"
    case None =>
      match ParseCIDR(cidr)
      case Some(net) => !IsZero(net.ip)
      case None => false
  }

  predicate ValidDomainRule(d: DomainRule) { IsDomain(d.domain) && RuleAction(d.action) }
  predicate ValidIPRange(r: IPRangeRule) { ValidCidr(r.cidr) && RuleAction(r.action) }
  predicate ValidAcl(r: ClientACLRule) { ValidAclCidr(r.cidr) && ACLAction(r.action) }
  predicate ValidParent(p: ParentProxy) { ParseIP(p.address).Some? && 1024 <= p.port <= 65535 }

  // An empty default action means direct.
  function Defaulted(action: string): string { if action == "" then "direct" else action }

  ghost predicate Valid(rs: RuleSet) {
    && RuleAction(Defaulted(rs.defaultAction))
    && (forall d :: d in rs.domains ==> ValidDomainRule(d))
    && (forall r :: r in rs.ipRanges ==> ValidIPRange(r))
    && (forall a :: a in rs.acl ==> ValidAcl(a))
    && (forall p :: p in rs.parents ==> ValidParent(p))
  }

  // ---- The messages ----

  datatype Problem =
    | DefaultActionInvalid
    | DomainEmpty(i: nat) | DomainWildcard(i: nat) | DomainInvalid(i: nat) | DomainAction(i: nat)
    | CidrEmpty(i: nat) | CidrInvalid(i: nat) | CidrZero(i: nat) | CidrAction(i: nat)
    | AclEmpty(i: nat) | AclInvalid(i: nat) | AclZero(i: nat) | AclAction(i: nat)
    | ParentEmpty(i: nat) | ParentInvalid(i: nat) | ParentPort(i: nat)

  predicate Wildcard(domain: string) { domain == "*." || domain == "*" }

  ghost predicate DomainProblem(ds: seq<DomainRule>, p: Problem) {
    match p
    case DomainEmpty(i) => i < |ds| && ds[i].domain == ""
    case DomainWildcard(i) => i < |ds| && Wildcard(ds[i].domain)
    case DomainInvalid(i) => i < |ds| && ds[i].domain != "" && !Wildcard(ds[i].domain) && !IsDomain(ds[i].domain)
    case DomainAction(i) => i < |ds| && ds[i].domain != "" && !Wildcard(ds[i].domain) && !RuleAction(ds[i].action)
    case _ => false
  }

  ghost predicate CidrProblem(rs: seq<IPRangeRule>, p: Problem) {
    match p
    case CidrEmpty(i) => i < |rs| && rs[i].cidr == ""
    case CidrInvalid(i) => i < |rs| && rs[i].cidr != "" && !Accepted(rs[i].cidr)
    case CidrZero(i) => i < |rs| && rs[i].cidr != "" && Accepted(rs[i].cidr) && !ValidCidr(rs[i].cidr)
    case CidrAction(i) => i < |rs| && rs[i].cidr != "" && !RuleAction(rs[i].action)
    case _ => false
  }

  ghost predicate AclProblem(rs: seq<ClientACLRule>, p: Problem) {
    match p
    case AclEmpty(i) => i < |rs| && rs[i].cidr == ""
    case AclInvalid(i) => i < |rs| && rs[i].cidr != "" && !Accepted(rs[i].cidr)
    case AclZero(i) => i < |rs| && rs[i].cidr != "" && Accepted(rs[i].cidr) && !ValidAclCidr(rs[i].cidr)
    case AclAction(i) => i < |rs| && rs[i].cidr != "" && !ACLAction(rs[i].action)
    case _ => false
  }

  ghost predicate ParentProblem(ps: seq<ParentProxy>, p: Problem) {
    match p
    case ParentEmpty(i) => i < |ps| && ps[i].address == ""
    case ParentInvalid(i) => i < |ps| && ps[i].address != "" && ParseIP(ps[i].address).None?
    case ParentPort(i) => i < |ps| && !(1024 <= ps[i].port <= 65535)
    case _ => false
  }

  ghost predicate IsProblem(rs: RuleSet, p: Problem) {
    || (p == DefaultActionInvalid && !RuleAction(Defaulted(rs.defaultAction)))
    || DomainProblem(rs.domains, p) || CidrProblem(rs.ipRanges, p)
    || AclProblem(rs.acl, p) || ParentProblem(rs.parents, p)
  }

  // ---- validateRules ----

  method DomainProblems(ds: seq<DomainRule>) returns (errs: seq<Problem>)
    ensures forall p :: p in errs <==> DomainProblem(ds, p)
  {
    errs := [];
    for i := 0 to |ds|
      invariant forall p :: p in errs <==> DomainProblem(ds[..i], p)
    {
      assert ds[..i + 1] == ds[..i] + [ds[i]];
      if ds[i].domain == "" {
        errs := errs + [DomainEmpty(i)];
        continue;
      }
      if Wildcard(ds[i].domain) {
        errs := errs + [DomainWildcard(i)];
        continue;
      }
      if !IsDomain(ds[i].domain) {
        errs := errs + [DomainInvalid(i)];
      }
      if !RuleAction(ds[i].action) {
        errs := errs + [DomainAction(i)];
      }
    }
    assert ds[..|ds|] == ds;
  }

  method CidrProblems(rs: seq<IPRangeRule>) returns (errs: seq<Problem>)
    ensures forall p :: p in errs <==> CidrProblem(rs, p)
  {
    errs := [];
    for i := 0 to |rs|
      invariant forall p :: p in errs <==> CidrProblem(rs[..i], p)
    {
      assert rs[..i + 1] == rs[..i] + [rs[i]];
      if rs[i].cidr == "" {
        errs := errs + [CidrEmpty(i)];
        continue;
      }
      var bad := ValidateCIDR(rs[i].cidr, i);
      errs := errs + bad;
      if !RuleAction(rs[i].action) {
        errs := errs + [CidrAction(i)];
      }
    }
    assert rs[..|rs|] == rs;
  }

  method ValidateCIDR(cidr: string, i: nat) returns (errs: seq<Problem>)
    ensures errs == if !Accepted(cidr) then [CidrInvalid(i)] else if !ValidCidr(cidr) then [CidrZero(i)] else []
  {
    var ip := ParseIP(cidr);
    if ip.Some? {
      return if IsZero(ip.value) then [CidrZero(i)] else [];
    }
    var net := ParseCIDR(cidr);
    if net.None? { return [CidrInvalid(i)]; }
    return if IsZero(net.value.ip) then [CidrZero(i)] else [];
  }

  method AclProblems(rs: seq<ClientACLRule>) returns (errs: seq<Problem>)
    ensures forall p :: p in errs <==> AclProblem(rs, p)
  {
    errs := [];
    for i := 0 to |rs|
      invariant forall p :: p in errs <==> AclProblem(rs[..i], p)
    {
      assert rs[..i + 1] == rs[..i] + [rs[i]];
      if rs[i].cidr == "" {
        errs := errs + [AclEmpty(i)];
        continue;
      }
      var bad := AclCidrProblem(rs[i].cidr, i);
      errs := errs + bad;
      if !ACLAction(rs[i].action) {
        errs := errs + [AclAction(i)];
      }
    }
    assert rs[..|rs|] == rs;
  }

  method AclCidrProblem(cidr: string, i: nat) returns (errs: seq<Problem>)
    ensures errs == if !Accepted(cidr) then [AclInvalid(i)] else if !ValidAclCidr(cidr) then [AclZero(i)] else []
  {
    if ParseIP(cidr).Some? {
      return if cidr == "0.0.0.0" then [AclZero(i)] else [];
    }
    var net := ParseCIDR(cidr);
    if net.None? { return [AclInvalid(i)]; }
    return if IsZero(net.value.ip) then [AclZero(i)] else [];
  }

  method ParentProblems(ps: seq<ParentProxy>) returns (errs: seq<Problem>)
    ensures forall p :: p in errs <==> ParentProblem(ps, p)
  {
    errs := [];
    for i := 0 to |ps|
      invariant forall p :: p in errs <==> ParentProblem(ps[..i], p)
    {
      assert ps[..i + 1] == ps[..i] + [ps[i]];
      if ps[i].address == "" {
        errs := errs + [ParentEmpty(i)];
      } else if ParseIP(ps[i].address).None? {
        errs := errs + [ParentInvalid(i)];
      }
      if ps[i].port < 1024 || ps[i].port > 65535 {
        errs := errs + [ParentPort(i)];
      }
    }
    assert ps[..|ps|] == ps;
  }

  // Every problem is reported, nothing else is, and silence means a valid rule set.
  method ValidateRules(rs: RuleSet) returns (errs: seq<Problem>)
    ensures forall p :: p in errs <==> IsProblem(rs, p)
    ensures errs == [] <==> Valid(rs)
  {
    errs := if !RuleAction(Defaulted(rs.defaultAction)) then [DefaultActionInvalid] else [];
    var e1 := DomainProblems(rs.domains);
    var e2 := CidrProblems(rs.ipRanges);
    var e3 := AclProblems(rs.acl);
    var e4 := ParentProblems(rs.parents);
    errs := errs + e1 + e2 + e3 + e4;
    NoProblems(rs);
    if errs != [] { assert errs[0] in errs; }
  }

  lemma NoProblems(rs: RuleSet)
    ensures (forall p :: !IsProblem(rs, p)) <==> Valid(rs)
  {
    if forall p :: !IsProblem(rs, p) {
      assert !IsProblem(rs, DefaultActionInvalid);
      forall d | d in rs.domains ensures ValidDomainRule(d) { NoDomainProblem(rs, d); }
      forall r | r in rs.ipRanges ensures ValidIPRange(r) { NoCidrProblem(rs, r); }
      forall r | r in rs.acl ensures ValidAcl(r) { NoAclProblem(rs, r); }
      forall p | p in rs.parents ensures ValidParent(p) { NoParentProblem(rs, p); }
    }
    if Valid(rs) {
      forall p ensures !IsProblem(rs, p) { ValidHasNone(rs, p); }
    }
  }

  lemma ValidHasNone(rs: RuleSet, p: Problem)
    requires Valid(rs)
    ensures !IsProblem(rs, p)
  {
    ValidDomains(rs, p);
    ValidCidrs(rs.ipRanges, p);
    ValidAcls(rs.acl, p);
    ValidParents(rs.parents, p);
  }

  lemma ValidIsNotEmpty(r: IPRangeRule)
    requires ValidIPRange(r)
    ensures r.cidr != "" && Accepted(r.cidr) && ValidCidr(r.cidr) && RuleAction(r.action)
  {
    if r.cidr == "" { EmptyIsNoAddress(); }
  }

  lemma ValidAclIsNotEmpty(r: ClientACLRule)
    requires ValidAcl(r)
    ensures r.cidr != "" && Accepted(r.cidr) && ValidAclCidr(r.cidr) && ACLAction(r.action)
  {
    if r.cidr == "" { EmptyIsNoAddress(); }
  }

  lemma ValidCidrs(rows: seq<IPRangeRule>, p: Problem)
    requires forall r :: r in rows ==> ValidIPRange(r)
    ensures !CidrProblem(rows, p)
  {
    if (p.CidrEmpty? || p.CidrInvalid? || p.CidrZero? || p.CidrAction?) && p.i < |rows| { ValidIsNotEmpty(rows[p.i]); }
  }

  lemma ValidAcls(rows: seq<ClientACLRule>, p: Problem)
    requires forall r :: r in rows ==> ValidAcl(r)
    ensures !AclProblem(rows, p)
  {
    if (p.AclEmpty? || p.AclInvalid? || p.AclZero? || p.AclAction?) && p.i < |rows| { ValidAclIsNotEmpty(rows[p.i]); }
  }

  lemma ValidParents(rows: seq<ParentProxy>, p: Problem)
    requires forall r :: r in rows ==> ValidParent(r)
    ensures !ParentProblem(rows, p)
  {
    EmptyIsNoAddress();
    if (p.ParentEmpty? || p.ParentInvalid? || p.ParentPort?) && p.i < |rows| { assert ValidParent(rows[p.i]); }
  }

  lemma EmptyIsNoAddress()
    ensures ParseIP("") == None && ParseCIDR("") == None
  {
  }

  lemma ValidDomains(rs: RuleSet, p: Problem)
    requires Valid(rs)
    ensures !DomainProblem(rs.domains, p)
  {
    NoDomain("");
    NoDomain("*");
    NoDomain("*.");
    assert forall i :: 0 <= i < |rs.domains| ==> ValidDomainRule(rs.domains[i]);
  }

  lemma NoDomain(s: string)
    requires s == "" || Wildcard(s)
    ensures !IsDomain(s)
  {
    assert Split("", '.') == [""];
    SplitWhole("*", '.');
    assert "*."[2..] == "";
  }

  lemma DomainClean(ds: seq<DomainRule>, i: nat)
    requires i < |ds| && !DomainProblem(ds, DomainEmpty(i)) && !DomainProblem(ds, DomainWildcard(i))
    requires !DomainProblem(ds, DomainInvalid(i)) && !DomainProblem(ds, DomainAction(i))
    ensures ValidDomainRule(ds[i])
  {
  }

  lemma NoDomainProblem(rs: RuleSet, d: DomainRule)
    requires d in rs.domains && forall p :: !IsProblem(rs, p)
    ensures ValidDomainRule(d)
  {
    var i :| 0 <= i < |rs.domains| && rs.domains[i] == d;
    assert !IsProblem(rs, DomainEmpty(i)) && !IsProblem(rs, DomainWildcard(i));
    assert !IsProblem(rs, DomainInvalid(i)) && !IsProblem(rs, DomainAction(i));
    DomainClean(rs.domains, i);
  }

  lemma CidrClean(rows: seq<IPRangeRule>, i: nat)
    requires i < |rows| && !CidrProblem(rows, CidrEmpty(i)) && !CidrProblem(rows, CidrInvalid(i))
    requires !CidrProblem(rows, CidrZero(i)) && !CidrProblem(rows, CidrAction(i))
    ensures ValidIPRange(rows[i])
  {
    var r := rows[i];
    assert r.cidr != "" && Accepted(r.cidr) && RuleAction(r.action);
  }

  lemma NoCidrProblem(rs: RuleSet, r: IPRangeRule)
    requires r in rs.ipRanges && forall p :: !IsProblem(rs, p)
    ensures ValidIPRange(r)
  {
    var i :| 0 <= i < |rs.ipRanges| && rs.ipRanges[i] == r;
    assert !IsProblem(rs, CidrEmpty(i)) && !IsProblem(rs, CidrInvalid(i));
    assert !IsProblem(rs, CidrZero(i)) && !IsProblem(rs, CidrAction(i));
    CidrClean(rs.ipRanges, i);
  }

  lemma AclClean(rows: seq<ClientACLRule>, i: nat)
    requires i < |rows| && !AclProblem(rows, AclEmpty(i)) && !AclProblem(rows, AclInvalid(i))
    requires !AclProblem(rows, AclZero(i)) && !AclProblem(rows, AclAction(i))
    ensures ValidAcl(rows[i])
  {
    var r := rows[i];
    assert r.cidr != "" && Accepted(r.cidr) && ACLAction(r.action);
  }

  lemma NoAclProblem(rs: RuleSet, r: ClientACLRule)
    requires r in rs.acl && forall p :: !IsProblem(rs, p)
    ensures ValidAcl(r)
  {
    var i :| 0 <= i < |rs.acl| && rs.acl[i] == r;
    assert !IsProblem(rs, AclEmpty(i)) && !IsProblem(rs, AclInvalid(i));
    assert !IsProblem(rs, AclZero(i)) && !IsProblem(rs, AclAction(i));
    AclClean(rs.acl, i);
  }

  lemma NoParentProblem(rs: RuleSet, q: ParentProxy)
    requires q in rs.parents && forall p :: !IsProblem(rs, p)
    ensures ValidParent(q)
  {
    var i :| 0 <= i < |rs.parents| && rs.parents[i] == q;
    assert !IsProblem(rs, ParentEmpty(i)) && !IsProblem(rs, ParentInvalid(i)) && !IsProblem(rs, ParentPort(i));
  }

  // ---- What validation buys ----

  lemma {:induction false} ZeroValue(b: Bytes)
    requires Value(b) == 0
    ensures b == Zeros(|b|)
  {
    if b != [] {
      if b[0] as nat > 0 { MulLe(1, b[0] as nat, Pow256(|b| - 1)); }
      ZeroValue(b[1..]);
      assert b == [b[0]] + b[1..];
    }
  }

  lemma DottedExcludesZero(cidr: string)
    requires ValidCidr(cidr) && IsDotted(cidr)
    ensures !Denotes(cidr, Zeros(4)) && PrefixLength(cidr) >= 1
  {
    var net, b, n := ParseCIDR(cidr).value, AddressPart(cidr), PrefixLength(cidr);
    CidrIsNotIP(cidr);
    LowValue(b, n, net.mask);
    DottedMeaning(cidr, Zeros(4));
    if Value(net.ip) == 0 { ZeroValue(net.ip); }
    FullRange(b);
    ZeroIsZero(4);
  }

  lemma MappedExcludesZero(cidr: string)
    requires ValidCidr(cidr) && IsMapped(cidr)
    ensures !Denotes(cidr, Zeros(4))
  {
    var b, k := MappedParts(cidr);
    var ip := ParseCIDR(cidr).value.ip[12..];
    MappedRange(cidr, Zeros(4), b, k);
    CidrIsNotIP(cidr);
    LowValue(b, k, CIDRMask(k, 4));
    if Value(ip) == 0 { ZeroValue(ip); }
    ZeroIsZero(4);
  }

  lemma {:induction false} ZeroIsZero(n: nat)
    ensures Value(Zeros(n)) == 0
  {
    if n > 0 {
      assert Zeros(n)[1..] == Zeros(n - 1);
      ZeroIsZero(n - 1);
    }
  }

  // No accepted rule reaches 0.0.0.0; in particular no dotted block is a /0.
  lemma ValidExcludesZero(cidr: string)
    requires ValidCidr(cidr)
    ensures !Denotes(cidr, Zeros(4))
    ensures IsDotted(cidr) ==> PrefixLength(cidr) >= 1
  {
    if IsDotted(cidr) {
      DottedExcludesZero(cidr);
    } else if IsMapped(cidr) {
      MappedExcludesZero(cidr);
    } else if ParseCIDR(cidr).Some? {
      CidrIsNotIP(cidr);
    }
  }

  predicate DomainChar(c: char) { IsAlnum(c) || c == '-' || c == '.' || c == '*' }

  lemma {:induction false} JoinChars(parts: seq<string>)
    requires forall l :: l in parts ==> IsLabel(l)
    ensures forall i :: 0 <= i < |Join(parts, '.')| ==> DomainChar(Join(parts, '.')[i])
  {
    if |parts| > 1 {
      JoinChars(parts[1..]);
      assert parts[0] in parts;
    } else if |parts| == 1 {
      assert parts[0] in parts;
    }
  }

  lemma DomainChars(domain: string)
    requires IsDomain(domain)
    ensures domain != "" && forall i :: 0 <= i < |domain| ==> DomainChar(domain[i])
    ensures Host(domain) != "" && IsAlnum(Host(domain)[0])
  {
    var h := Host(domain);
    JoinSplit(h, '.');
    JoinChars(Split(h, '.'));
    if HasPrefix(domain, "*.") { assert domain == "*." + h; }
    var labels := Split(h, '.');
    assert labels[0] in labels;
  }
}
