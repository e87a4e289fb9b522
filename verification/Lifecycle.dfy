/**
The life of a config, draft to approved, and its assignment to proxies: what every
service call does to the tables, and what no sequence of calls can break.
*/
module Lifecycle {
  import opened Text
  import opened NetAddr
  import opened CidrRange
  import opened Routing
  import opened Rules
  import opened Sorting
  import opened ConfigFiles
  import opened Store

  datatype Request = Request(name: string, rules: RuleSet, proxyIds: seq<Id>)

  // A call leaves the tables as they are, or changed, and fails or not.
  datatype Reply = Reply(db: Db, err: Option<Error>)

  function Fail(db: Db, e: Error): Reply { Reply(db, Some(e)) }
  function Done(db: Db): Reply { Reply(db, None) }

  function WithDefault(rs: RuleSet): RuleSet { rs.(defaultAction := Defaulted(rs.defaultAction)) }

  function DefaultAcl(): seq<ClientACLRule> {
    [ ClientACLRule("127.0.0.1", "allow", 10), ClientACLRule("::1", "allow", 20), ClientACLRule("10.0.0.0" + "/" + "8", "allow", 30) ]
  }

  function CreateRules(rs: RuleSet): RuleSet {
    WithDefault(rs).(acl := if rs.acl == [] then DefaultAcl() else rs.acl)
  }

  function LinksTo(id: Id, pids: seq<Id>): set<Link> { set p | p in pids :: Link(id, p) }

  function NewConfig(name: string, version: nat, rules: RuleSet, user: Id): Config {
    Config(name, Draft, version, rules, user, None, None, None, NoHash)
  }

  function WithConfig(db: Db, id: Id, c: Config, links: set<Link>): Db {
    Db(db.configs[id := c], db.proxies, db.links + links)
  }

  ghost predicate RowsFit(db: Db, req: Request, rules: RuleSet) {
    |req.name| <= 255 && Storable(rules) && forall p :: p in req.proxyIds ==> p in db.proxies
  }

  // ---- The calls ----

  ghost function Create(db: Db, id: Id, req: Request, user: Id): Reply {
    if req.name == "" || !Valid(WithDefault(req.rules)) then Fail(db, BadRequest)
    else if !RowsFit(db, req, CreateRules(req.rules)) then Fail(db, Constraint)
    else Done(WithConfig(db, id, NewConfig(req.name, 1, CreateRules(req.rules), user), LinksTo(id, req.proxyIds)))
  }

  // Update asks for no name and inserts no default client rules.
  ghost function Update(db: Db, id: Id, req: Request): Reply {
    if !Valid(WithDefault(req.rules)) then Fail(db, BadRequest)
    else if id !in db.configs then Fail(db, NotFound)
    else if db.configs[id].status != Draft then Fail(db, InvalidStatus)
    else if !RowsFit(db, req, WithDefault(req.rules)) then Fail(db, Constraint)
    else
      var c := db.configs[id].(name := req.name, rules := WithDefault(req.rules));
      Done(WithConfig(DropLinksOfConfig(db, id), id, c, LinksTo(id, req.proxyIds)))
  }

  function LinkedProxies(db: Db, id: Id): set<Id> { set l | l in db.links && l.config == id :: l.proxy }

  function CopiedLinks(db: Db, src: Id, id: Id): set<Link> { set p | p in LinkedProxies(db, src) :: Link(id, p) }

  // The rows are read back in any order that their priorities allow.
  ghost function Clone(db: Db, src: Id, id: Id, user: Id, rules: RuleSet): Reply {
    if src !in db.configs then Fail(db, NotFound) else Done(Copy(db, src, id, user, rules))
  }

  function CopyOf(c: Config, user: Id, rules: RuleSet): Config { NewConfig(c.name, c.version + 1, rules, user) }

  ghost function Copy(db: Db, src: Id, id: Id, user: Id, rules: RuleSet): Db
    requires src in db.configs
  {
    WithConfig(db, id, CopyOf(db.configs[src], user, rules), CopiedLinks(db, src, id))
  }

  function Submit(db: Db, id: Id, user: Id): Reply {
    if id !in db.configs || db.configs[id].status != Draft then Fail(db, InvalidStatus)
    else Done(SetConfig(db, id, db.configs[id].(status := PendingApproval, submittedBy := Some(user))))
  }

  function ApproveGuard(db: Db, id: Id, user: Id): Option<Error> {
    if id !in db.configs then Some(NotFound)
    else if db.configs[id].status != PendingApproval then Some(InvalidStatus)
    else if db.configs[id].submittedBy != Some(user) then Some(Forbidden)
    else None
  }

  // UPDATE ... SET status = 'active' WHERE status = 'pending_approval'
  function SetActive(db: Db, id: Id, user: Id, now: nat, h: Hash): Db
    requires id in db.configs
  {
    SetConfig(db, id, db.configs[id].(status := Active, approvedBy := Some(user), approvedAt := Some(now), hash := h))
  }

  ghost function Approve(db: Db, id: Id, user: Id, now: nat, h: Hash): Reply {
    match ApproveGuard(db, id, user)
    case Some(e) => Fail(db, e)
    case None => Done(SetActive(DeactivateOthers(db, id), id, user, now, h))
  }

  // The process dies between the two updates.
  ghost function ApproveStopped(db: Db, id: Id, user: Id): Db {
    if ApproveGuard(db, id, user).Some? then db else DeactivateOthers(db, id)
  }

  function Reject(db: Db, id: Id): Reply {
    if id !in db.configs || db.configs[id].status != PendingApproval then Fail(db, InvalidStatus)
    else Done(SetConfig(db, id, db.configs[id].(status := Draft, submittedBy := None)))
  }

  ghost function Delete(db: Db, id: Id): Reply {
    if id !in db.configs then Fail(db, NotFound)
    else if db.configs[id].status == Active || db.configs[id].approvedAt.Some? then Fail(db, BadRequest)
    else if Referenced(db, id) then Fail(db, Constraint)
    else Done(DropConfig(db, id))
  }

  function AssignGuard(db: Db, p: Id, c: Option<Id>): Option<Error> {
    if p !in db.proxies then Some(NotFound)
    else if c.None? then None
    else if c.value !in db.configs then Some(NotFound)
    else if db.configs[c.value].status != Active then Some(BadRequest)
    else None
  }

  function Assign(db: Db, p: Id, c: Option<Id>): Reply {
    match AssignGuard(db, p, c)
    case Some(e) => Fail(db, e)
    case None =>
      var bare := DropLinksOfProxy(db, p);
      Done(if c.None? then bare else bare.(links := bare.links + {Link(c.value, p)}))
  }

  // The process dies after the old links are gone.
  function AssignStopped(db: Db, p: Id, c: Option<Id>): Db {
    if AssignGuard(db, p, c).Some? then db else DropLinksOfProxy(db, p)
  }

  function DeleteProxy(db: Db, p: Id): Reply {
    if p !in db.proxies then Fail(db, NotFound) else Done(DropProxy(db, p))
  }

  // ---- Runs ----

  // Everything that changes the tables: the calls above, their broken-off forms, and what
  // registration, polling and the scheduled jobs do to proxy rows.
  datatype Event =
    | Created(id: Id, req: Request, user: Id)
    | Updated(id: Id, req: Request)
    | Cloned(src: Id, id: Id, user: Id, rules: RuleSet)
    | Submitted(id: Id, user: Id)
    | ApprovedBy(id: Id, user: Id, now: nat, files: Files)
    | ApproveDied(id: Id, user: Id)
    | Rejected(id: Id)
    | Deleted(id: Id)
    | Assigned(proxy: Id, config: Option<Id>)
    | AssignDied(proxy: Id, config: Option<Id>)
    | ProxyDeleted(proxy: Id)
    | ProxyAdded(proxy: Id, row: Proxy)
    | ProxyTouched(proxy: Id, online: bool, lastSeen: Option<nat>, hash: Hash, ip: Option<string>)
    | HashFilled(id: Id, files: Files)
    | StaleMarked(now: nat)
    | StaleRemoved(now: nat)

  ghost function Apply(db: Db, e: Event): Db {
    match e
    case Created(id, req, user) => Create(db, id, req, user).db
    case Updated(id, req) => Update(db, id, req).db
    case Cloned(src, id, user, rules) => Clone(db, src, id, user, rules).db
    case Submitted(id, user) => Submit(db, id, user).db
    case ApprovedBy(id, user, now, files) => Approve(db, id, user, now, HashOf(files)).db
    case ApproveDied(id, user) => ApproveStopped(db, id, user)
    case Rejected(id) => Reject(db, id).db
    case Deleted(id) => Delete(db, id).db
    case Assigned(p, c) => Assign(db, p, c).db
    case AssignDied(p, c) => AssignStopped(db, p, c)
    case ProxyDeleted(p) => DeleteProxy(db, p).db
    case ProxyAdded(p, row) => SetProxy(db, p, row)
    case ProxyTouched(p, online, seen, hash, ip) =>
      if p !in db.proxies then db
      else SetProxy(db, p, db.proxies[p].(online := online, lastSeen := seen, hash := hash, ip := ip))
    case HashFilled(id, files) =>
      if id !in db.configs then db else SetConfig(db, id, db.configs[id].(hash := HashOf(files)))
    case StaleMarked(now) => MarkOfflineStale(db, now)
    case StaleRemoved(now) => DeleteOfflineStale(db, now)
  }

  // New keys are fresh, a hash is that of files generated from the rows, and an inserted
  // row meets the constraints of its table.
  ghost predicate Admissible(db: Db, e: Event) {
    match e
    case Created(id, _, _) => id !in db.configs
    case Cloned(src, id, _, rules) => id !in db.configs && (src in db.configs ==> SameRows(db.configs[src].rules, rules))
    case ApprovedBy(id, _, _, files) => id in db.configs ==> IsGeneration(db.configs[id].rules, files)
    case ProxyAdded(p, row) =>
      && p !in db.proxies && ByHostname(db, row.hostname).None?
      && (row.configId.Some? ==> row.configId.value in db.configs)
    case HashFilled(id, files) =>
      id in db.configs ==> db.configs[id].status == Active && db.configs[id].hash == NoHash && IsGeneration(db.configs[id].rules, files)
    case _ => true
  }

  ghost function ApplyAll(db: Db, es: seq<Event>): Db
    decreases |es|
  {
    if es == [] then db else ApplyAll(Apply(db, es[0]), es[1..])
  }

  ghost predicate AllAdmissible(db: Db, es: seq<Event>)
    decreases |es|
  {
    es == [] || (Admissible(db, es[0]) && AllAdmissible(Apply(db, es[0]), es[1..]))
  }

  // ---- Every step keeps the invariant ----

  lemma LocalHostIP()
    ensures ParseIP("127.0.0.1") == Some([127, 0, 0, 1])
  {
    var b: Bytes := [127, 0, 0, 1];
    assert PrintNat(12) == "12" && PrintNat(127) == "127" && PrintNat(0) == "0" && PrintNat(1) == "1";
    Dotted(b, "127", "0", "0", "1");
    DottedIP("127.0.0.1", b);
  }

  lemma TenIP()
    ensures ParseIP("10.0.0.0") == Some([10, 0, 0, 0])
  {
    var b: Bytes := [10, 0, 0, 0];
    assert PrintNat(10) == "10" && PrintNat(0) == "0";
    Dotted(b, "10", "0", "0", "0");
    DottedIP("10.0.0.0", b);
  }

  lemma TenIsNotZero(net: Bytes)
    requires net == Masked([10, 0, 0, 0], CIDRMask(8, 4))
    ensures !IsZero(net)
  {
    MaskedAt([10, 0, 0, 0], CIDRMask(8, 4), 0);
    assert (10 as bv8) & 0xFF == 10;
  }

  lemma BlockIsValid(ip: string, digits: string, cidr: string)
    requires cidr == ip + "/" + digits && ParseIP(ip) == Some([10, 0, 0, 0]) && ParseNat(digits) == Some(8)
    ensures ValidAclCidr(cidr)
  {
    WithPrefix(ip, digits, 8);
    CidrIsNotIP(cidr);
    TenIsNotZero(ParseCIDR(cidr).value.ip);
  }

  lemma TenBlock(cidr: string)
    requires cidr == "10.0.0.0" + "/" + "8"
    ensures ValidAclCidr(cidr)
  {
    TenIP();
    BlockIsValid("10.0.0.0", "8", cidr);
  }

  lemma LocalSix(cidr: string)
    requires cidr == "::1"
    ensures ValidAclCidr(cidr)
  {
    LeadingGap("1");
    assert "::" + "1" == "::1";
    assert HexRun("1") == 1;
  }

  lemma LocalHost4(r: ClientACLRule)
    requires r == ClientACLRule("127.0.0.1", "allow", 10)
    ensures ValidAcl(r)
  {
    LocalHostIP();
    assert "127.0.0.1"[0] != "0.0.0.0"[0];
  }

  lemma LocalHost6(r: ClientACLRule)
    requires r == ClientACLRule("::1", "allow", 20)
    ensures ValidAcl(r)
  {
    LocalSix(r.cidr);
  }

  lemma TenNet(r: ClientACLRule)
    requires r == ClientACLRule("10.0.0.0" + "/" + "8", "allow", 30)
    ensures ValidAcl(r)
  {
    TenBlock(r.cidr);
  }

  lemma DefaultAclGood()
    ensures forall r :: r in DefaultAcl() ==> ValidAcl(r)
    ensures Admits(DefaultAcl(), AclFits, AclKey)
  {
    forall r | r in DefaultAcl() ensures ValidAcl(r) {
      if r.priority == 10 {
        LocalHost4(r);
      } else if r.priority == 20 {
        LocalHost6(r);
      } else {
        TenNet(r);
      }
    }
    DefaultAclFits();
  }

  lemma DefaultAclFits()
    ensures Admits(DefaultAcl(), AclFits, AclKey)
  {
    var a := DefaultAcl();
    assert AclKey(a[0]) != AclKey(a[1]) && AclKey(a[0]) != AclKey(a[2]) && AclKey(a[1]) != AclKey(a[2]);
  }

  // Nothing that was not active on a proxy became so.
  ghost predicate NoNewActive(db: Db, after: Db) {
    forall c, p :: ActiveOn(after, c, p) ==> ActiveOn(db, c, p)
  }

  lemma NoNewActiveKeeps(db: Db, after: Db)
    requires OneActive(db) && NoNewActive(db, after)
    ensures OneActive(after)
  {
    forall x, y, p | ActiveOn(after, x, p) && ActiveOn(after, y, p) ensures x == y {
      assert ActiveOn(db, x, p) && ActiveOn(db, y, p);
    }
  }

  lemma OneRowGood(db: Db, after: Db, id: Id, c: Config)
    requires AllGood(db) && GoodConfig(c) && after.configs == db.configs[id := c]
    ensures AllGood(after)
  {
    forall x | x in after.configs ensures GoodConfig(after.configs[x]) {
      if x != id { assert GoodConfig(db.configs[x]); }
    }
  }

  lemma DraftGood(c: Config)
    requires c.status == Draft && c.submittedBy == None && c.approvedBy == None && c.approvedAt == None && c.hash == NoHash
    requires c.version >= 1 && Valid(c.rules) && Storable(c.rules)
    ensures GoodConfig(c)
  {
  }

  lemma PutDraft(db: Db, id: Id, c: Config, links: set<Link>)
    requires Integrity(db) && OneActive(db) && c.status != Active
    requires id in db.configs ==> db.configs[id].status != Active
    requires forall l :: l in links ==> l.config == id && l.proxy in db.proxies
    ensures Integrity(WithConfig(db, id, c, links)) && OneActive(WithConfig(db, id, c, links))
  {
    assert NoNewActive(db, WithConfig(db, id, c, links));
    NoNewActiveKeeps(db, WithConfig(db, id, c, links));
  }

  // A row of one config changes, none becomes active.
  lemma RowShape(db: Db, id: Id, c: Config)
    requires Integrity(db) && OneActive(db) && id in db.configs && c.status != Active
    ensures Integrity(SetConfig(db, id, c)) && OneActive(SetConfig(db, id, c))
  {
    assert NoNewActive(db, SetConfig(db, id, c));
    NoNewActiveKeeps(db, SetConfig(db, id, c));
  }

  lemma QuietRow(db: Db, id: Id, c: Config)
    requires Inv(db) && id in db.configs && c.status != Active && GoodConfig(c)
    ensures Inv(SetConfig(db, id, c))
  {
    RowShape(db, id, c);
    OneRowGood(db, SetConfig(db, id, c), id, c);
  }

  lemma PutDraftKeeps(db: Db, id: Id, c: Config, links: set<Link>)
    requires Inv(db) && id !in db.configs && GoodConfig(c) && c.status == Draft
    requires forall l :: l in links ==> l.config == id && l.proxy in db.proxies
    ensures Inv(WithConfig(db, id, c, links))
  {
    PutDraft(db, id, c, links);
    OneRowGood(db, WithConfig(db, id, c, links), id, c);
  }

  lemma CreateKeeps(db: Db, id: Id, req: Request, user: Id)
    requires Inv(db) && id !in db.configs
    ensures Inv(Create(db, id, req, user).db)
  {
    if Create(db, id, req, user).err.None? {
      var rules := CreateRules(req.rules);
      var c, links := NewConfig(req.name, 1, rules, user), LinksTo(id, req.proxyIds);
      CreateRulesGood(req.rules);
      DraftGood(c);
      PutDraftKeeps(db, id, c, links);
    }
  }

  lemma CreateRulesGood(rs: RuleSet)
    requires Valid(WithDefault(rs))
    ensures Valid(CreateRules(rs))
  {
    if rs.acl == [] { DefaultAclGood(); }
  }

  lemma CopyGood(c: Config, rules: RuleSet, user: Id)
    requires GoodConfig(c) && SameRows(c.rules, rules)
    ensures GoodConfig(CopyOf(c, user, rules))
  {
    SameRowsStorable(c.rules, rules);
    DraftGood(CopyOf(c, user, rules));
  }

  lemma CopiedInto(db: Db, src: Id, id: Id)
    requires Integrity(db)
    ensures forall l :: l in CopiedLinks(db, src, id) ==> l.config == id && l.proxy in db.proxies
  {
  }

  lemma PlacedCopy(db: Db, src: Id, id: Id, user: Id, rules: RuleSet)
    requires Inv(db) && id !in db.configs && src in db.configs && GoodConfig(CopyOf(db.configs[src], user, rules))
    ensures Inv(Copy(db, src, id, user, rules))
  {
    CopiedInto(db, src, id);
    PutDraftKeeps(db, id, CopyOf(db.configs[src], user, rules), CopiedLinks(db, src, id));
  }

  lemma CopyIsGood(db: Db, src: Id, user: Id, rules: RuleSet)
    requires AllGood(db) && src in db.configs && SameRows(db.configs[src].rules, rules)
    ensures GoodConfig(CopyOf(db.configs[src], user, rules))
  {
    var c := db.configs[src];
    assert GoodConfig(c);
    CopyGood(c, rules, user);
  }

  lemma CopyKeeps(db: Db, src: Id, id: Id, user: Id, rules: RuleSet)
    requires Inv(db) && id !in db.configs && src in db.configs && SameRows(db.configs[src].rules, rules)
    ensures Inv(Copy(db, src, id, user, rules))
  {
    CopyIsGood(db, src, user, rules);
    PlacedCopy(db, src, id, user, rules);
  }

  lemma CloneKeeps(db: Db, src: Id, id: Id, user: Id, rules: RuleSet)
    requires Inv(db) && id !in db.configs && (src in db.configs ==> SameRows(db.configs[src].rules, rules))
    ensures Inv(Clone(db, src, id, user, rules).db)
  {
    if src in db.configs { CopyKeeps(db, src, id, user, rules); }
  }

  lemma GoodRules(db: Db, id: Id)
    requires AllGood(db) && id in db.configs
    ensures GoodConfig(db.configs[id]) && Valid(db.configs[id].rules) && Storable(db.configs[id].rules)
  {
  }

  lemma EditedGood(c: Config, name: string, rules: RuleSet)
    requires GoodConfig(c) && c.status == Draft && Valid(rules) && Storable(rules)
    ensures GoodConfig(c.(name := name, rules := rules))
  {
  }

  lemma BareShape(db: Db, id: Id)
    requires Integrity(db) && OneActive(db)
    ensures Integrity(DropLinksOfConfig(db, id)) && OneActive(DropLinksOfConfig(db, id))
  {
    assert NoNewActive(db, DropLinksOfConfig(db, id));
    NoNewActiveKeeps(db, DropLinksOfConfig(db, id));
  }

  lemma EditShape(db: Db, id: Id, c: Config, links: set<Link>)
    requires Integrity(db) && OneActive(db) && id in db.configs && db.configs[id].status != Active && c.status != Active
    requires forall l :: l in links ==> l.config == id && l.proxy in db.proxies
    ensures Integrity(WithConfig(DropLinksOfConfig(db, id), id, c, links)) && OneActive(WithConfig(DropLinksOfConfig(db, id), id, c, links))
  {
    BareShape(db, id);
    PutDraft(DropLinksOfConfig(db, id), id, c, links);
  }

  lemma EditKeeps(db: Db, id: Id, c: Config, links: set<Link>)
    requires Inv(db) && id in db.configs && db.configs[id].status != Active && c.status != Active && GoodConfig(c)
    requires forall l :: l in links ==> l.config == id && l.proxy in db.proxies
    ensures Inv(WithConfig(DropLinksOfConfig(db, id), id, c, links))
  {
    EditShape(db, id, c, links);
    OneRowGood(db, WithConfig(DropLinksOfConfig(db, id), id, c, links), id, c);
  }

  // The row and the links that a successful update leaves.
  lemma UpdateLeaves(db: Db, id: Id, req: Request)
    ensures Update(db, id, req).err.Some? ==> Update(db, id, req).db == db
    ensures Update(db, id, req).err.None? ==>
      id in db.configs && db.configs[id].status == Draft && Valid(WithDefault(req.rules)) && Storable(WithDefault(req.rules)) &&
      (forall l :: l in LinksTo(id, req.proxyIds) ==> l.config == id && l.proxy in db.proxies) &&
      Update(db, id, req).db == WithConfig(DropLinksOfConfig(db, id), id,
        db.configs[id].(name := req.name, rules := WithDefault(req.rules)), LinksTo(id, req.proxyIds))
  {
  }

  lemma UpdateKeeps(db: Db, id: Id, req: Request)
    requires Inv(db)
    ensures Inv(Update(db, id, req).db)
  {
    UpdateLeaves(db, id, req);
    if Update(db, id, req).err.None? {
      assert GoodConfig(db.configs[id]);
      EditedGood(db.configs[id], req.name, WithDefault(req.rules));
      EditKeeps(db, id, db.configs[id].(name := req.name, rules := WithDefault(req.rules)), LinksTo(id, req.proxyIds));
    }
  }

  lemma SubmittedGood(c: Config, user: Id)
    requires GoodConfig(c) && c.status == Draft
    ensures GoodConfig(c.(status := PendingApproval, submittedBy := Some(user)))
  {
  }

  lemma SubmitKeeps(db: Db, id: Id, user: Id)
    requires Inv(db)
    ensures Inv(Submit(db, id, user).db)
  {
    if Submit(db, id, user).err.None? {
      var c := db.configs[id].(status := PendingApproval, submittedBy := Some(user));
      GoodRules(db, id);
      SubmittedGood(db.configs[id], user);
      QuietRow(db, id, c);
    }
  }

  lemma RejectedGood(c: Config)
    requires GoodConfig(c) && c.status == PendingApproval
    ensures GoodConfig(c.(status := Draft, submittedBy := None))
  {
  }

  lemma RejectKeeps(db: Db, id: Id)
    requires Inv(db)
    ensures Inv(Reject(db, id).db)
  {
    if Reject(db, id).err.None? {
      var c := db.configs[id].(status := Draft, submittedBy := None);
      GoodRules(db, id);
      RejectedGood(db.configs[id]);
      QuietRow(db, id, c);
    }
  }

  lemma RetiredGood(c: Config)
    requires GoodConfig(c) && c.status == Active
    ensures GoodConfig(c.(status := Approved))
  {
  }

  lemma DeactivateGood(db: Db, id: Id)
    requires AllGood(db)
    ensures AllGood(DeactivateOthers(db, id))
  {
    var after := DeactivateOthers(db, id);
    forall c | c in after.configs ensures GoodConfig(after.configs[c]) {
      GoodRules(db, c);
      if db.configs[c].status == Active { RetiredGood(db.configs[c]); }
    }
  }

  lemma DeactivateShape(db: Db, id: Id)
    requires Integrity(db) && OneActive(db)
    ensures Integrity(DeactivateOthers(db, id)) && OneActive(DeactivateOthers(db, id))
    ensures forall c, p :: c != id && ActiveOn(DeactivateOthers(db, id), c, p) ==> Link(id, p) !in db.links
  {
    var after := DeactivateOthers(db, id);
    assert NoNewActive(db, after);
    NoNewActiveKeeps(db, after);
  }

  lemma DeactivateKeeps(db: Db, id: Id)
    requires Inv(db)
    ensures Inv(DeactivateOthers(db, id))
  {
    DeactivateGood(db, id);
    DeactivateShape(db, id);
  }

  lemma ActivatedGood(c: Config, user: Id, now: nat, f: Files)
    requires GoodConfig(c) && c.status == PendingApproval && c.submittedBy == Some(user) && IsGeneration(c.rules, f)
    ensures GoodConfig(c.(status := Active, approvedBy := Some(user), approvedAt := Some(now), hash := HashOf(f)))
  {
  }

  // Once the others are out of the way, activation leaves one active config everywhere.
  lemma SetActiveShape(mid: Db, id: Id, user: Id, now: nat, h: Hash)
    requires Integrity(mid) && OneActive(mid) && id in mid.configs
    requires forall c, p :: c != id && ActiveOn(mid, c, p) ==> Link(id, p) !in mid.links
    ensures Integrity(SetActive(mid, id, user, now, h)) && OneActive(SetActive(mid, id, user, now, h))
  {
    var after := SetActive(mid, id, user, now, h);
    forall x, y, p | ActiveOn(after, x, p) && ActiveOn(after, y, p) ensures x == y {
      if x != id { assert ActiveOn(mid, x, p); }
      if y != id { assert ActiveOn(mid, y, p); }
    }
  }

  lemma ApproveKeeps(db: Db, id: Id, user: Id, now: nat, f: Files)
    requires Inv(db) && (id in db.configs ==> IsGeneration(db.configs[id].rules, f))
    ensures Inv(Approve(db, id, user, now, HashOf(f)).db)
  {
    if ApproveGuard(db, id, user).None? {
      var mid := DeactivateOthers(db, id);
      DeactivateGood(db, id);
      DeactivateShape(db, id);
      SetActiveShape(mid, id, user, now, HashOf(f));
      GoodRules(db, id);
      ActivatedGood(db.configs[id], user, now, f);
      var c := db.configs[id].(status := Active, approvedBy := Some(user), approvedAt := Some(now), hash := HashOf(f));
      OneRowGood(mid, SetActive(mid, id, user, now, HashOf(f)), id, c);
    }
  }

  lemma DeleteKeeps(db: Db, id: Id)
    requires Inv(db)
    ensures Inv(Delete(db, id).db)
  {
    if Delete(db, id).err.None? {
      NoNewActiveKeeps(db, DropConfig(db, id));
      DropConfigIntegrity(db, id);
      forall c | c in DropConfig(db, id).configs ensures GoodConfig(DropConfig(db, id).configs[c]) { GoodRules(db, c); }
    }
  }

  lemma DropConfigIntegrity(db: Db, id: Id)
    requires Integrity(db) && !Referenced(db, id)
    ensures Integrity(DropConfig(db, id))
  {
    var after := DropConfig(db, id);
    forall p | p in after.proxies && after.proxies[p].configId.Some?
      ensures after.proxies[p].configId.value in after.configs
    {
      assert after.proxies[p].configId != Some(id);
    }
  }

  lemma SameConfigsGood(db: Db, after: Db)
    requires AllGood(db) && after.configs == db.configs
    ensures AllGood(after)
  {
  }

  lemma AssignStoppedKeeps(db: Db, p: Id, c: Option<Id>)
    requires Inv(db)
    ensures Inv(AssignStopped(db, p, c))
  {
    NoNewActiveKeeps(db, AssignStopped(db, p, c));
    SameConfigsGood(db, AssignStopped(db, p, c));
  }

  // The old links are gone, so the new one is the only one of that proxy.
  lemma AssignShape(db: Db, p: Id, c: Option<Id>)
    requires Integrity(db) && OneActive(db)
    ensures Integrity(Assign(db, p, c).db) && OneActive(Assign(db, p, c).db)
  {
    var after := Assign(db, p, c).db;
    forall x, y, q | ActiveOn(after, x, q) && ActiveOn(after, y, q) ensures x == y {
      if q != p { assert ActiveOn(db, x, q) && ActiveOn(db, y, q); }
    }
  }

  lemma AssignGood(db: Db, p: Id, c: Option<Id>)
    requires AllGood(db)
    ensures AllGood(Assign(db, p, c).db)
  {
    SameConfigsGood(db, Assign(db, p, c).db);
  }

  lemma AssignKeeps(db: Db, p: Id, c: Option<Id>)
    requires Inv(db)
    ensures Inv(Assign(db, p, c).db)
  {
    AssignShape(db, p, c);
    AssignGood(db, p, c);
  }

  lemma ProxyShape(db: Db, p: Id, row: Proxy)
    requires Integrity(db) && OneActive(db)
    requires if p in db.proxies then row.hostname == db.proxies[p].hostname && row.configId == db.proxies[p].configId
             else ByHostname(db, row.hostname).None? && (row.configId.Some? ==> row.configId.value in db.configs)
    ensures Integrity(SetProxy(db, p, row)) && OneActive(SetProxy(db, p, row))
  {
    NoNewActiveKeeps(db, SetProxy(db, p, row));
    if p !in db.proxies {
      forall q | q in db.proxies ensures db.proxies[q].hostname != row.hostname {
        assert !Named(db, q, row.hostname);
      }
    }
  }

  lemma ProxyKeeps(db: Db, p: Id, row: Proxy)
    requires Inv(db)
    requires if p in db.proxies then row.hostname == db.proxies[p].hostname && row.configId == db.proxies[p].configId
             else ByHostname(db, row.hostname).None? && (row.configId.Some? ==> row.configId.value in db.configs)
    ensures Inv(SetProxy(db, p, row))
  {
    ProxyShape(db, p, row);
    SameConfigsGood(db, SetProxy(db, p, row));
  }

  lemma DropProxyKeeps(db: Db, p: Id)
    requires Inv(db)
    ensures Inv(DropProxy(db, p))
  {
    NoNewActiveKeeps(db, DropProxy(db, p));
    SameConfigsGood(db, DropProxy(db, p));
  }

  lemma StaleKeeps(db: Db, now: nat)
    requires Inv(db)
    ensures Inv(MarkOfflineStale(db, now)) && Inv(DeleteOfflineStale(db, now))
  {
    NoNewActiveKeeps(db, MarkOfflineStale(db, now));
    NoNewActiveKeeps(db, DeleteOfflineStale(db, now));
    SameConfigsGood(db, MarkOfflineStale(db, now));
    SameConfigsGood(db, DeleteOfflineStale(db, now));
  }

  // The branch of GetConfig that fills in a missing hash is dead.
  lemma NoHashMissing(db: Db, id: Id)
    requires Inv(db) && IsActive(db, id)
    ensures db.configs[id].hash != NoHash
  {
    GoodRules(db, id);
  }

  // One step, whatever it is.
  lemma StepKeepsInv(db: Db, e: Event)
    requires Inv(db) && Admissible(db, e)
    ensures Inv(Apply(db, e))
  {
    match e
    case Created(id, req, user) => CreateKeeps(db, id, req, user);
    case Updated(id, req) => UpdateKeeps(db, id, req);
    case Cloned(src, id, user, rules) => CloneKeeps(db, src, id, user, rules);
    case Submitted(id, user) => SubmitKeeps(db, id, user);
    case ApprovedBy(id, user, now, files) => ApproveKeeps(db, id, user, now, files);
    case ApproveDied(id, user) => DeactivateKeeps(db, id);
    case Rejected(id) => RejectKeeps(db, id);
    case Deleted(id) => DeleteKeeps(db, id);
    case Assigned(p, c) => AssignKeeps(db, p, c);
    case AssignDied(p, c) => AssignStoppedKeeps(db, p, c);
    case ProxyDeleted(p) => DropProxyKeeps(db, p);
    case ProxyAdded(p, row) => ProxyKeeps(db, p, row);
    case ProxyTouched(p, online, seen, hash, ip) =>
      if p in db.proxies { ProxyKeeps(db, p, db.proxies[p].(online := online, lastSeen := seen, hash := hash, ip := ip)); }
    case HashFilled(id, files) =>
      if IsActive(db, id) { NoHashMissing(db, id); }
    case StaleMarked(now) => StaleKeeps(db, now);
    case StaleRemoved(now) => StaleKeeps(db, now);
  }

  // Every reachable state has at most one active config per proxy, a complete audit trail,
  // a correct hash on every activated config, and no dangling key.
  lemma {:induction false} RunKeepsInv(db: Db, es: seq<Event>)
    requires Inv(db) && AllAdmissible(db, es)
    ensures Inv(ApplyAll(db, es))
    decreases |es|
  {
    if es != [] {
      StepKeepsInv(db, es[0]);
      RunKeepsInv(Apply(db, es[0]), es[1..]);
    }
  }

  function EmptyDb(): Db { Db(map[], map[], {}) }

  lemma EmptyInv()
    ensures Inv(EmptyDb())
  {
  }
}
