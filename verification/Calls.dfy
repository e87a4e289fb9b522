/**
The calls of the config service, told by what they ask and by the rows that they leave:
the answer of each in every case, and everything that it does not touch.
*/
module Calls {
  import opened Text
  import opened NetAddr
  import opened CidrRange
  import opened Rules
  import opened Grammar
  import opened Sorting
  import opened Matching
  import opened ParentConfig
  import opened Routing
  import IpAllow
  import opened ConfigFiles
  import opened Store
  import opened Lifecycle

  // ---- What a request must be ----

  // No default action or one of the two; names, addresses, ports and actions that pass.
  ghost predicate Acceptable(rs: RuleSet) {
    && (rs.defaultAction == "" || rs.defaultAction == "direct" || rs.defaultAction == "parent")
    && (forall d :: d in rs.domains ==> IsDomain(d.domain) && (d.action == "direct" || d.action == "parent"))
    && (forall r :: r in rs.ipRanges ==>
          Accepted(r.cidr) && !Denotes(r.cidr, Zeros(4)) && (r.action == "direct" || r.action == "parent"))
    && (forall a :: a in rs.acl ==>
          Accepted(a.cidr) && (Denotes(a.cidr, Zeros(4)) ==> ParseIP(a.cidr).Some? && a.cidr != "0.0.0.0")
          && (a.action == "allow" || a.action == "deny"))
    && forall p :: p in rs.parents ==> ParseIP(p.address).Some? && 1024 <= p.port <= 65535
  }

  lemma AcceptableIff(rs: RuleSet)
    ensures Valid(WithDefault(rs)) <==> Acceptable(rs)
  {
    forall r | r in rs.ipRanges ensures ValidCidr(r.cidr) <==> Accepted(r.cidr) && !Denotes(r.cidr, Zeros(4)) { ValidCidrIff(r.cidr); }
    forall a | a in rs.acl
      ensures ValidAclCidr(a.cidr) <==>
              Accepted(a.cidr) && (Denotes(a.cidr, Zeros(4)) ==> ParseIP(a.cidr).Some? && a.cidr != "0.0.0.0")
    {
      ValidAclIff(a.cidr);
    }
  }

  // An INTEGER column.
  predicate IsInteger(n: int) { -2147483648 <= n <= 2147483647 }

  // Every text and number fits its column.
  ghost predicate Narrow(rs: RuleSet, acl: seq<ClientACLRule>) {
    && (forall d :: d in rs.domains ==> |d.domain| <= 255 && IsInteger(d.priority))
    && (forall r :: r in rs.ipRanges ==> |r.cidr| <= 50 && IsInteger(r.priority))
    && (forall p :: p in rs.parents ==> |p.address| <= 255 && IsInteger(p.port) && IsInteger(p.priority))
    && (forall a :: a in acl ==> |a.cidr| <= 50 && IsInteger(a.priority))
  }

  // No domain, block, upstream or client address stands twice in its list.
  ghost predicate NoTwice(rs: RuleSet, acl: seq<ClientACLRule>) {
    && (forall i, j :: 0 <= i < j < |rs.domains| ==> rs.domains[i].domain != rs.domains[j].domain)
    && (forall i, j :: 0 <= i < j < |rs.ipRanges| ==> rs.ipRanges[i].cidr != rs.ipRanges[j].cidr)
    && (forall i, j :: 0 <= i < j < |rs.parents| ==>
          rs.parents[i].address != rs.parents[j].address || rs.parents[i].port != rs.parents[j].port)
    && (forall i, j :: 0 <= i < j < |acl| ==> acl[i].cidr != acl[j].cidr)
  }

  // What the tables take: a name that fits, proxies that exist, rows that fit.
  ghost predicate Fits(db: Db, req: Request, acl: seq<ClientACLRule>) {
    && |req.name| <= 255 && (forall p :: p in req.proxyIds ==> p in db.proxies)
    && Narrow(req.rules, acl) && NoTwice(req.rules, acl)
  }

  lemma StorableIff(rs: RuleSet)
    ensures Storable(rs) <==> Narrow(rs, rs.acl) && NoTwice(rs, rs.acl)
  {
  }

  // ---- What is stored ----

  function StoredDefault(action: string): string { if action == "parent" then "parent" else "direct" }

  // The rules of the request; without a default, direct.
  ghost predicate Stored(req: RuleSet, rules: RuleSet, acl: seq<ClientACLRule>) {
    && rules.domains == req.domains && rules.ipRanges == req.ipRanges && rules.parents == req.parents
    && rules.acl == acl && rules.defaultAction == StoredDefault(req.defaultAction)
  }

  // An empty list of client rules stands for these.
  function StoredAcl(acl: seq<ClientACLRule>): seq<ClientACLRule> {
    if acl != [] then acl
    else [ClientACLRule("127.0.0.1", "allow", 10), ClientACLRule("::1", "allow", 20), ClientACLRule("10.0.0.0/8", "allow", 30)]
  }

  lemma TenText()
    ensures "10.0.0.0" + "/" + "8" == "10.0.0.0/8"
  {
  }

  lemma CreateStores(rs: RuleSet)
    requires Acceptable(rs)
    ensures Stored(rs, CreateRules(rs), StoredAcl(rs.acl))
  {
    TenText();
  }

  lemma UpdateStores(rs: RuleSet)
    requires Acceptable(rs)
    ensures Stored(rs, WithDefault(rs), rs.acl)
  {
  }

  // ---- Frames ----

  ghost predicate OnlyConfig(db: Db, after: Db, id: Id) {
    && after.proxies == db.proxies && after.configs.Keys == db.configs.Keys + {id}
    && forall c :: c in db.configs && c != id ==> after.configs[c] == db.configs[c]
  }

  // The links of id are those to the listed proxies; the others stay.
  ghost predicate LinksOf(db: Db, after: Db, id: Id, pids: seq<Id>) {
    forall c, p :: Link(c, p) in after.links <==> if c == id then p in pids else Link(c, p) in db.links
  }

  // ---- Create, Update, Clone ----

  // A config like any new one.
  ghost predicate IsDraft(c: Config, name: string, version: nat, user: Id) {
    && c.name == name && c.status == Draft && c.version == version && c.createdBy == user
    && c.submittedBy == None && c.approvedBy == None && c.approvedAt == None && c.hash == NoHash
  }

  lemma CreateIff(db: Db, id: Id, req: Request, user: Id)
    requires Integrity(db) && id !in db.configs
    ensures var r := Create(db, id, req, user);
            r.err == (if req.name == "" || !Acceptable(req.rules) then Some(BadRequest)
                      else if !Fits(db, req, StoredAcl(req.rules.acl)) then Some(Constraint) else None) &&
            (r.err.Some? ==> r.db == db) &&
            (r.err == None ==>
               OnlyConfig(db, r.db, id) && LinksOf(db, r.db, id, req.proxyIds) && IsDraft(r.db.configs[id], req.name, 1, user) &&
               Stored(req.rules, r.db.configs[id].rules, StoredAcl(req.rules.acl)))
  {
    AcceptableIff(req.rules);
    if Acceptable(req.rules) {
      CreateStores(req.rules);
      StorableIff(CreateRules(req.rules));
    }
  }

  lemma UpdateIff(db: Db, id: Id, req: Request)
    ensures var r := Update(db, id, req);
            r.err == (if !Acceptable(req.rules) then Some(BadRequest) else if id !in db.configs then Some(NotFound)
                      else if db.configs[id].status != Draft then Some(InvalidStatus)
                      else if !Fits(db, req, req.rules.acl) then Some(Constraint) else None) &&
            (r.err.Some? ==> r.db == db) &&
            (r.err == None ==>
               OnlyConfig(db, r.db, id) && LinksOf(db, r.db, id, req.proxyIds) &&
               Stored(req.rules, r.db.configs[id].rules, req.rules.acl) &&
               r.db.configs[id] == db.configs[id].(name := req.name, rules := r.db.configs[id].rules))
  {
    AcceptableIff(req.rules);
    if Acceptable(req.rules) {
      UpdateStores(req.rules);
      StorableIff(WithDefault(req.rules));
    }
  }

  lemma CloneIff(db: Db, src: Id, id: Id, user: Id, rules: RuleSet)
    requires Integrity(db) && id !in db.configs
    ensures var r := Clone(db, src, id, user, rules);
            (src !in db.configs ==> r == Reply(db, Some(NotFound))) &&
            (src in db.configs ==>
               r.err == None && OnlyConfig(db, r.db, id) && r.db.configs[id].rules == rules &&
               IsDraft(r.db.configs[id], db.configs[src].name, db.configs[src].version + 1, user) &&
               forall c, p :: Link(c, p) in r.db.links <==> Link(if c == id then src else c, p) in db.links)
  {
    if src in db.configs {
      forall p ensures Link(id, p) in CopiedLinks(db, src, id) <==> Link(src, p) in db.links {
        if Link(src, p) in db.links { assert p in LinkedProxies(db, src); }
      }
    }
  }

  // ---- Submit, Approve, Reject, Delete ----

  lemma SubmitIff(db: Db, id: Id, user: Id)
    ensures var r := Submit(db, id, user);
            (r.err == None <==> id in db.configs && db.configs[id].status == Draft) &&
            (r.err.Some? ==> r == Reply(db, Some(InvalidStatus))) &&
            (r.err == None ==>
               OnlyConfig(db, r.db, id) && r.db.links == db.links &&
               r.db.configs[id] == db.configs[id].(status := PendingApproval, submittedBy := Some(user)))
  {
  }

  lemma RejectIff(db: Db, id: Id)
    ensures var r := Reject(db, id);
            (r.err == None <==> id in db.configs && db.configs[id].status == PendingApproval) &&
            (r.err.Some? ==> r == Reply(db, Some(InvalidStatus))) &&
            (r.err == None ==>
               OnlyConfig(db, r.db, id) && r.db.links == db.links &&
               r.db.configs[id] == db.configs[id].(status := Draft, submittedBy := None))
  {
  }

  // Approval: of a pending config, by the user who submitted it. The config becomes
  // active, with user, time and hash; the other active configs on its proxies are replaced,
  // and nothing else changes.
  lemma ApproveIff(db: Db, id: Id, user: Id, now: nat, h: Hash)
    ensures var r := Approve(db, id, user, now, h);
            r.err == (if id !in db.configs then Some(NotFound)
                      else if db.configs[id].status != PendingApproval then Some(InvalidStatus)
                      else if db.configs[id].submittedBy != Some(user) then Some(Forbidden) else None) &&
            (r.err.Some? ==> r.db == db) &&
            (r.err == None ==>
               r.db.proxies == db.proxies && r.db.links == db.links && r.db.configs.Keys == db.configs.Keys &&
               r.db.configs[id] == db.configs[id].(status := Active, approvedBy := Some(user), approvedAt := Some(now), hash := h) &&
               forall c :: c in db.configs && c != id ==> Retired(db, r.db, id, c))
  {
  }

  // Replaced if it was active on a proxy of id, else as it was.
  ghost predicate Retired(db: Db, after: Db, id: Id, c: Id)
    requires c in db.configs && c in after.configs
  {
    after.configs[c] ==
      if db.configs[c].status == Active && (exists p :: Link(id, p) in db.links && Link(c, p) in db.links)
      then db.configs[c].(status := Approved) else db.configs[c]
  }

  lemma DeleteIff(db: Db, id: Id)
    requires AllGood(db)
    ensures var r := Delete(db, id);
            r.err == (if id !in db.configs then Some(NotFound)
                      else if db.configs[id].status in {Active, Approved} then Some(BadRequest)
                      else if exists p :: p in db.proxies && db.proxies[p].configId == Some(id) then Some(Constraint) else None) &&
            (r.err.Some? ==> r.db == db) &&
            (r.err == None ==>
               r.db.proxies == db.proxies && r.db.configs.Keys == db.configs.Keys - {id} &&
               (forall c :: c in r.db.configs ==> r.db.configs[c] == db.configs[c]) &&
               forall c, p :: Link(c, p) in r.db.links <==> Link(c, p) in db.links && c != id)
  {
    if id in db.configs {
      GoodRules(db, id);
      ApprovedOnce(db.configs[id]);
      DropLeaves(db, id);
    }
  }

  lemma DropLeaves(db: Db, id: Id)
    ensures var after := DropConfig(db, id);
            after.proxies == db.proxies && after.configs.Keys == db.configs.Keys - {id} &&
            (forall c :: c in after.configs ==> after.configs[c] == db.configs[c]) &&
            forall c: Id, p: Id :: Link(c, p) in after.links <==> Link(c, p) in db.links && c != id
  {
  }

  lemma ApprovedOnce(c: Config)
    requires GoodConfig(c)
    ensures c.approvedAt.Some? <==> c.status in {Active, Approved}
  {
  }

  // ---- AssignConfig ----

  lemma AssignIff(db: Db, p: Id, c: Option<Id>)
    ensures var r := Assign(db, p, c);
            r.err == (if p !in db.proxies || (c.Some? && c.value !in db.configs) then Some(NotFound)
                      else if c.Some? && db.configs[c.value].status != Active then Some(BadRequest) else None) &&
            (r.err.Some? ==> r.db == db) &&
            (r.err == None ==>
               r.db.configs == db.configs && r.db.proxies == db.proxies &&
               forall x: Id, q: Id :: Link(x, q) in r.db.links <==> if q == p then c == Some(x) else Link(x, q) in db.links)
  {
  }

  // ---- What the defaults mean ----

  // A destination of no rule goes where the default of the request says, direct when it
  // says nothing: in every file that the stored config can print.

  // ---- What the defaults mean ----

  // No rule of the request names the destination.
  ghost predicate Unmatched(req: RuleSet, d: Destination) {
    && !InfraDest(d) && (forall r :: r in req.ipRanges ==> !IpHit(d)(r))
    && forall r :: r in req.domains ==> !DomainHit(d)(r)
  }

  lemma NotPrintedEither(r: IPRangeRule, d: Destination)
    requires !IpHit(d)(r)
    ensures !PrintedHit(d)(r)
  {
    if d.addr.Some? && TruncatesBlock(r.cidr) && PrintedDenotes(r.cidr, d.addr.value) { TruncatedCoversLess(r.cidr, d.addr.value); }
  }

  lemma StoredValid(req: RuleSet, rules: RuleSet, acl: seq<ClientACLRule>)
    requires Acceptable(req) && Stored(req, rules, acl) && forall a :: a in acl ==> ValidAcl(a)
    ensures Valid(rules)
  {
    AcceptableIff(req);
    SameRowsValid(WithDefault(req), rules);
  }

  lemma SameRowsValid(rs: RuleSet, rules: RuleSet)
    requires Valid(rs) && rules.domains == rs.domains && rules.ipRanges == rs.ipRanges && rules.parents == rs.parents
    requires (forall a :: a in rules.acl ==> ValidAcl(a)) && RuleAction(rules.defaultAction)
    ensures Valid(rules)
  {
  }

  // It goes where the default says: direct, unless that is parent and a parent is enabled.
  lemma UnmatchedGoes(req: RuleSet, rules: RuleSet, acl: seq<ClientACLRule>, f: Files, d: Destination)
    returns (ps: seq<ParentProxy>, es: seq<Entry>)
    requires Acceptable(req) && Stored(req, rules, acl) && (forall a :: a in acl ==> ValidAcl(a))
    requires IsGeneration(rules, f) && Unmatched(req, d)
    ensures SortOf(ps, req.parents, ParentPriority) && ParseParentConfig(f.parent) == Some(es)
    ensures FirstMatch(es, d) ==
            Some(if req.defaultAction == "parent" && Enabled(ps) != [] then ViaParents(Enabled(ps)) else GoDirect)
  {
    StoredValid(req, rules, acl);
    var p :| OrderOf(p, rules) && f == FilesOf(p, rules.defaultAction);
    ps := p.ps;
    var route;
    es, route := FileDecides(rules, p.ips, p.doms, p.ps, d);
    NothingDecides(rules, d, Enabled(ps), route);
  }

  lemma NothingDecides(rules: RuleSet, d: Destination, us: seq<Upstream>, route: Route)
    requires Unmatched(rules, d) && Decides(rules, us, d, PrintedHit(d), route)
    ensures route == if rules.defaultAction == "parent" && us != [] then ViaParents(us) else GoDirect
  {
    forall r | r in rules.ipRanges ensures !PrintedHit(d)(r) { NotPrintedEither(r, d); }
    assert !AnyHit(rules.ipRanges, PrintedHit(d)) && !AnyHit(rules.domains, DomainHit(d));
  }

  lemma StoredAclValid(acl: seq<ClientACLRule>)
    requires forall a :: a in acl ==> ValidAcl(a)
    ensures forall a :: a in StoredAcl(acl) ==> ValidAcl(a)
  {
    TenText();
    DefaultAclGood();
  }

  // So in every file of a config as it was created ...
  lemma CreatedDefault(db: Db, id: Id, req: Request, user: Id, f: Files, d: Destination) returns (ps: seq<ParentProxy>, es: seq<Entry>)
    requires Integrity(db) && id !in db.configs && Create(db, id, req, user).err == None
    requires IsGeneration(Create(db, id, req, user).db.configs[id].rules, f) && Unmatched(req.rules, d)
    ensures SortOf(ps, req.rules.parents, ParentPriority) && ParseParentConfig(f.parent) == Some(es)
    ensures FirstMatch(es, d) ==
            Some(if req.rules.defaultAction == "parent" && Enabled(ps) != [] then ViaParents(Enabled(ps)) else GoDirect)
  {
    CreateIff(db, id, req, user);
    StoredAclValid(req.rules.acl);
    ps, es := UnmatchedGoes(req.rules, Create(db, id, req, user).db.configs[id].rules, StoredAcl(req.rules.acl), f, d);
  }

  // ... or updated.
  lemma UpdatedDefault(db: Db, id: Id, req: Request, f: Files, d: Destination) returns (ps: seq<ParentProxy>, es: seq<Entry>)
    requires Update(db, id, req).err == None
    requires IsGeneration(Update(db, id, req).db.configs[id].rules, f) && Unmatched(req.rules, d)
    ensures SortOf(ps, req.rules.parents, ParentPriority) && ParseParentConfig(f.parent) == Some(es)
    ensures FirstMatch(es, d) ==
            Some(if req.rules.defaultAction == "parent" && Enabled(ps) != [] then ViaParents(Enabled(ps)) else GoDirect)
  {
    UpdateIff(db, id, req);
    ps, es := UnmatchedGoes(req.rules, Update(db, id, req).db.configs[id].rules, req.rules.acl, f, d);
  }

  // ---- Who gets in without client rules ----

  // 127.0.0.1, ::1 and 10.0.0.0/8.
  predicate AtHome(a: Bytes) {
    var n := Norm(a);
    n == [127, 0, 0, 1] || n == Zeros(15) + [1] || (|n| == 4 && n[0] == 10)
  }

  lemma LocalFour(a: Bytes)
    ensures Denotes("127.0.0.1", a) <==> Norm(a) == [127, 0, 0, 1]
  {
    LocalHostIP();
  }

  lemma One(s: string)
    requires s == "1"
    ensures ParseGroups(s, [], Some(0)) == Some(([0, 1], Some(0)))
  {
    assert HexRun(s) == 1 && s[..1] == s && s[..0] == "";
    assert HexNumber(s) == 1;
    assert Group(s) == [0, 1] && [] + Group(s) == [0, 1];
  }

  lemma LocalSixAddress(s: string)
    requires s == "::1"
    ensures ParseIP(s) == Some(Zeros(15) + [1])
  {
    var got: Bytes := [0, 1];
    One("1");
    LeadingGap("1");
    assert "::" + "1" == "::1";
    assert got[..0] + Zeros(14) + got[0..] == Zeros(15) + [1];
  }

  lemma LocalSixDenotes(a: Bytes)
    requires IsAddr(a)
    ensures Denotes("::1", a) <==> Norm(a) == Zeros(15) + [1]
  {
    LocalSixAddress("::1");
    assert (Zeros(15) + [1])[10] == 0;
  }

  lemma TenDenotes(ip: string, digits: string, cidr: string, a: Bytes)
    requires cidr == ip + "/" + digits && ParseIP(ip) == Some([10, 0, 0, 0]) && ParseNat(digits) == Some(8)
    ensures Denotes(cidr, a) <==> |Norm(a)| == 4 && Norm(a)[0] == 10
  {
    WithPrefix(ip, digits, 8);
    TenMasked([10, 0, 0, 0]);
    BlockOfTen(cidr, [10, 0, 0, 0], a);
  }

  lemma BlockOfTen(cidr: string, ten: Bytes, a: Bytes)
    requires ten == [10, 0, 0, 0] && FirstOf(ten, 8) && ParseCIDR(cidr) == Some(IPNet(ten, CIDRMask(8, 4)))
    ensures Denotes(cidr, a) <==> |Norm(a)| == 4 && Norm(a)[0] == 10
  {
    CidrIsNotIP(cidr);
    if |Norm(a)| == 4 { TenBlockHas(Norm(a), ten); }
  }

  lemma TenMasked(ten: Bytes)
    requires ten == [10, 0, 0, 0]
    ensures Masked(ten, CIDRMask(8, 4)) == ten && FirstOf(ten, 8)
  {
    forall i | 0 <= i < 4 ensures Masked(ten, CIDRMask(8, 4))[i] == ten[i] && Kept(ten[i], 8, i) == ten[i] {
      MaskAt(8, 4, i);
      MaskedAt(ten, CIDRMask(8, 4), i);
      if i == 0 { FullByte(ten[0], 8); }
    }
  }

  lemma TenBlockHas(n: Bytes, ten: Bytes)
    requires |n| == 4 && ten == [10, 0, 0, 0] && FirstOf(ten, 8)
    ensures SameUnder(n, ten, CIDRMask(8, 4)) <==> n[0] == 10
  {
    InBlock(n, ten, 8);
    FullByte(n[0], 8);
    assert Kept(n[0], 8, 0) == n[0];
    assert forall i :: 1 <= i < 4 ==> Kept(n[i], 8, i) == 0;
  }

  lemma ThreeHits(acl: seq<ClientACLRule>, hit: ClientACLRule -> bool)
    requires |acl| == 3
    ensures AnyHit(acl, hit) <==> hit(acl[0]) || hit(acl[1]) || hit(acl[2])
  {
    assert acl[0] in acl && acl[1] in acl && acl[2] in acl;
  }

  lemma TenHome(cidr: string, a: Bytes)
    requires cidr == "10.0.0.0/8"
    ensures Denotes(cidr, a) <==> |Norm(a)| == 4 && Norm(a)[0] == 10
  {
    TenIP();
    TenText();
    TenDenotes("10.0.0.0", "8", cidr, a);
  }

  ghost predicate HomeTexts(acl: seq<ClientACLRule>) {
    |acl| == 3 && acl[0].cidr == "127.0.0.1" && acl[1].cidr == "::1" && acl[2].cidr == "10.0.0.0/8"
  }

  lemma HomeRules(acl: seq<ClientACLRule>, a: Bytes)
    requires IsAddr(a) && HomeTexts(acl)
    ensures AnyHit(acl, IpAllow.AclHit(a)) <==> AtHome(a)
  {
    LocalFour(a);
    LocalSixDenotes(a);
    TenHome(acl[2].cidr, a);
    ThreeHits(acl, IpAllow.AclHit(a));
  }

  // Where all rules allow, whoever matches one gets in.
  lemma AllAllowed(acl: seq<ClientACLRule>, a: Bytes, allow: bool)
    requires (forall r :: r in acl ==> r.action == "allow") && IpAllow.ReferenceAccess(acl, a, allow)
    ensures allow <==> AnyHit(acl, IpAllow.AclHit(a))
  {
  }

  lemma HomeAccess(rules: RuleSet, f: Files, a: Bytes) returns (bs: seq<IpAllow.Block>)
    requires HomeTexts(rules.acl) && (forall r :: r in rules.acl ==> ValidAcl(r) && r.action == "allow")
    requires IsGeneration(rules, f) && IsAddr(a)
    ensures IpAllow.ParseAllow(f.allow) == Some(bs) && IpAllow.Admits(bs, a) == Some(AtHome(a))
  {
    var p :| OrderOf(p, rules) && f == FilesOf(p, rules.defaultAction);
    var allow;
    bs, allow := IpAllow.AccessPreserved(rules.acl, p.acl, a);
    AllAllowed(rules.acl, a, allow);
    HomeRules(rules.acl, a);
  }

  // A config created without client rules admits exactly those.
  lemma CreatedAccess(db: Db, id: Id, req: Request, user: Id, f: Files, a: Bytes) returns (bs: seq<IpAllow.Block>)
    requires Integrity(db) && id !in db.configs && Create(db, id, req, user).err == None && req.rules.acl == []
    requires IsGeneration(Create(db, id, req, user).db.configs[id].rules, f) && IsAddr(a)
    ensures IpAllow.ParseAllow(f.allow) == Some(bs) && IpAllow.Admits(bs, a) == Some(AtHome(a))
  {
    CreateIff(db, id, req, user);
    StoredAtHome(StoredAcl([]));
    bs := HomeAccess(Create(db, id, req, user).db.configs[id].rules, f, a);
  }

  lemma StoredAtHome(acl: seq<ClientACLRule>)
    requires acl == StoredAcl([])
    ensures HomeTexts(acl) && forall r :: r in acl ==> ValidAcl(r) && r.action == "allow"
  {
    StoredAclValid([]);
  }
}
