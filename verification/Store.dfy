/**
The tables, the statements that change them, and the relational invariant. A table is a
map from primary keys; the rule tables of a config travel with its row, because every
statement on them names the config and the foreign keys cascade.
*/
module Store {
  import opened Text
  import opened Rules
  import opened Sorting
  import opened ConfigFiles
  import opened Ties

  type Id = nat

  datatype Status = Draft | PendingApproval | Active | Approved

  datatype Config = Config(
    name: string, status: Status, version: nat, rules: RuleSet,
    createdBy: Id, submittedBy: Option<Id>, approvedBy: Option<Id>, approvedAt: Option<nat>, hash: Hash)

  datatype Proxy = Proxy(
    hostname: string, configId: Option<Id>, online: bool, lastSeen: Option<nat>, hash: Hash, ip: Option<string>)

  datatype Link = Link(config: Id, proxy: Id)

  datatype Db = Db(configs: map<Id, Config>, proxies: map<Id, Proxy>, links: set<Link>)

  datatype Error = NotFound | BadRequest | InvalidStatus | Forbidden | Conflict | Constraint

  // ---- What the columns admit ----

  ghost predicate UniqueBy<T, K>(rows: seq<T>, key: T -> K) {
    forall i, j :: 0 <= i < j < |rows| ==> key(rows[i]) != key(rows[j])
  }

  const DomainKey: DomainRule -> string := (d: DomainRule) => d.domain
  const CidrKey: IPRangeRule -> string := (r: IPRangeRule) => r.cidr
  const ParentKey: ParentProxy -> (string, int) := (p: ParentProxy) => (p.address, p.port)
  const AclKey: ClientACLRule -> string := (r: ClientACLRule) => r.cidr

  predicate Int32(n: int) { -0x8000_0000 <= n < 0x8000_0000 }

  const DomainFits: DomainRule -> bool := (d: DomainRule) => |d.domain| <= 255 && Int32(d.priority)
  const CidrFits: IPRangeRule -> bool := (r: IPRangeRule) => |r.cidr| <= 50 && Int32(r.priority)
  const ParentFits: ParentProxy -> bool := (p: ParentProxy) => |p.address| <= 255 && Int32(p.port) && Int32(p.priority)
  const AclFits: ClientACLRule -> bool := (r: ClientACLRule) => |r.cidr| <= 50 && Int32(r.priority)

  ghost predicate Admits<T, K>(rows: seq<T>, fits: T -> bool, key: T -> K) {
    (forall r :: r in rows ==> fits(r)) && UniqueBy(rows, key)
  }

  // The rule rows that can stand together under one config: widths and UNIQUE constraints.
  ghost predicate Storable(rs: RuleSet) {
    && Admits(rs.domains, DomainFits, DomainKey) && Admits(rs.ipRanges, CidrFits, CidrKey)
    && Admits(rs.parents, ParentFits, ParentKey) && Admits(rs.acl, AclFits, AclKey)
  }

  lemma AdmitsPermutes<T, K>(s: seq<T>, t: seq<T>, fits: T -> bool, key: T -> K)
    requires multiset(s) == multiset(t) && Admits(s, fits, key)
    ensures Admits(t, fits, key)
  {
    SameElements(s, t);
    forall i, j | 0 <= i < j < |t| ensures key(t[i]) != key(t[j]) {
      assert t[i] in s && t[j] in s;
      if t[i] == t[j] {
        OccursTwice(t, t[i]);
        OccursTwice(s, t[i]);
      }
    }
  }

  lemma SameRowsStorable(rs: RuleSet, other: RuleSet)
    requires SameRows(rs, other) && Storable(rs) && Valid(rs)
    ensures Storable(other) && Valid(other)
  {
    AdmitsPermutes(rs.domains, other.domains, DomainFits, DomainKey);
    AdmitsPermutes(rs.ipRanges, other.ipRanges, CidrFits, CidrKey);
    AdmitsPermutes(rs.parents, other.parents, ParentFits, ParentKey);
    AdmitsPermutes(rs.acl, other.acl, AclFits, AclKey);
    SameElements(rs.domains, other.domains);
    SameElements(rs.ipRanges, other.ipRanges);
    SameElements(rs.parents, other.parents);
    SameElements(rs.acl, other.acl);
  }

  lemma UniqueRows<T(!new), K(!new)>(rows: seq<T>, key: T -> K)
    requires UniqueBy(rows, key)
    ensures forall a, b :: a in rows && b in rows && key(a) == key(b) ==> a == b
  {
    forall a, b | a in rows && b in rows && key(a) == key(b) ensures a == b {
      var i :| 0 <= i < |rows| && rows[i] == a;
      var j :| 0 <= j < |rows| && rows[j] == b;
    }
  }

  lemma StorableKeys(rs: RuleSet)
    requires Storable(rs)
    ensures UniqueKeys(rs)
  {
    UniqueRows(rs.domains, DomainKey);
    UniqueRows(rs.parents, ParentKey);
    UniqueRows(rs.acl, AclKey);
    assert forall a, b :: a in rs.domains && b in rs.domains && DomainKey(a) == DomainKey(b) ==> a == b;
    assert forall a, b :: a in rs.parents && b in rs.parents && ParentKey(a) == ParentKey(b) ==> a == b;
    assert forall a, b :: a in rs.acl && b in rs.acl && AclKey(a) == AclKey(b) ==> a == b;
  }

  // ---- The invariant ----

  // What the database itself maintains: foreign keys and the unique hostname.
  ghost predicate Integrity(db: Db) {
    && (forall l :: l in db.links ==> l.config in db.configs && l.proxy in db.proxies)
    && (forall p :: p in db.proxies && db.proxies[p].configId.Some? ==> db.proxies[p].configId.value in db.configs)
    && (forall p, q :: p in db.proxies && q in db.proxies && db.proxies[p].hostname == db.proxies[q].hostname ==> p == q)
  }

  ghost predicate IsActive(db: Db, c: Id) { c in db.configs && db.configs[c].status == Active }

  ghost predicate ActiveOn(db: Db, c: Id, p: Id) { IsActive(db, c) && Link(c, p) in db.links }

  ghost predicate OneActive(db: Db) {
    forall c, d, p :: ActiveOn(db, c, p) && ActiveOn(db, d, p) ==> c == d
  }

  predicate WasActivated(c: Config) { c.status == Active || c.status == Approved }

  // Who submitted and who approved, and when.
  ghost predicate Audited(c: Config) {
    && (c.approvedAt.Some? <==> WasActivated(c))
    && (c.submittedBy.None? <==> c.status == Draft)
    && c.approvedBy == if WasActivated(c) then c.submittedBy else None
  }

  // The stored hash is that of some generation of the stored rules, once activated.
  ghost predicate Cached(c: Config) {
    if WasActivated(c) then exists f :: IsGeneration(c.rules, f) && c.hash == HashOf(f) else c.hash == NoHash
  }

  ghost predicate GoodConfig(c: Config) {
    Valid(c.rules) && Storable(c.rules) && Audited(c) && Cached(c) && c.version >= 1
  }

  ghost predicate AllGood(db: Db) {
    forall c :: c in db.configs ==> GoodConfig(db.configs[c])
  }

  ghost predicate Inv(db: Db) {
    Integrity(db) && OneActive(db) && AllGood(db)
  }

  // ---- Reads ----

  ghost predicate Named(db: Db, p: Id, hostname: string) {
    p in db.proxies && db.proxies[p].hostname == hostname
  }

  ghost function ByHostname(db: Db, hostname: string): (r: Option<Id>)
    ensures r.Some? ==> Named(db, r.value, hostname)
    ensures r.None? ==> forall p :: !Named(db, p, hostname)
  {
    if exists p :: Named(db, p, hostname) then var p :| Named(db, p, hostname); Some(p) else None
  }

  // The rows of the query in GetActiveForProxy, before its LIMIT 1.
  ghost predicate ActiveForHost(db: Db, hostname: string, c: Id) {
    exists p :: Named(db, p, hostname) && ActiveOn(db, c, p)
  }

  ghost function ActiveFor(db: Db, hostname: string): (r: Option<Id>)
    ensures r.Some? ==> ActiveForHost(db, hostname, r.value)
    ensures r.None? ==> forall c :: !ActiveForHost(db, hostname, c)
  {
    if exists c :: ActiveForHost(db, hostname, c) then var c :| ActiveForHost(db, hostname, c); Some(c) else None
  }

  // LIMIT 1 never has a choice.
  lemma LimitOneIsExact(db: Db, hostname: string, c: Id, d: Id)
    requires Integrity(db) && OneActive(db) && ActiveForHost(db, hostname, c) && ActiveForHost(db, hostname, d)
    ensures c == d && ActiveFor(db, hostname) == Some(c)
  {
    var p :| Named(db, p, hostname) && ActiveOn(db, c, p);
    var q :| Named(db, q, hostname) && ActiveOn(db, d, q);
    assert p == q;
    var e := ActiveFor(db, hostname).value;
    var s :| Named(db, s, hostname) && ActiveOn(db, e, s);
    assert s == p;
  }

  // ---- Statements ----

  function SetConfig(db: Db, id: Id, c: Config): Db { db.(configs := db.configs[id := c]) }
  function SetProxy(db: Db, id: Id, p: Proxy): Db { db.(proxies := db.proxies[id := p]) }

  function DropLinksOfConfig(db: Db, id: Id): Db { db.(links := set l | l in db.links && l.config != id) }
  function DropLinksOfProxy(db: Db, id: Id): Db { db.(links := set l | l in db.links && l.proxy != id) }

  function DropConfig(db: Db, id: Id): Db {
    DropLinksOfConfig(db.(configs := map c | c in db.configs && c != id :: db.configs[c]), id)
  }

  function DropProxy(db: Db, id: Id): Db {
    DropLinksOfProxy(db.(proxies := map p | p in db.proxies && p != id :: db.proxies[p]), id)
  }

  ghost predicate ShareProxy(db: Db, c: Id, d: Id) {
    exists p :: Link(c, p) in db.links && Link(d, p) in db.links
  }

  // UPDATE ... SET status = 'approved' for the other active configs that share a proxy.
  ghost function DeactivateOthers(db: Db, id: Id): Db {
    db.(configs := map c | c in db.configs ::
      if db.configs[c].status == Active && c != id && ShareProxy(db, id, c)
      then db.configs[c].(status := Approved) else db.configs[c])
  }

  ghost predicate Referenced(db: Db, id: Id) {
    exists p :: p in db.proxies && db.proxies[p].configId == Some(id)
  }

  // ---- Proxy rows ----

  const OfflineAfter: nat := 120
  const RemovedAfter: nat := 14400

  // last_seen < NOW() - interval; false for NULL.
  predicate SilentFor(p: Proxy, now: nat, span: nat) {
    p.lastSeen.Some? && p.lastSeen.value + span < now
  }

  // UPDATE ... SET is_online = FALSE WHERE last_seen < NOW() - INTERVAL '2 minutes' AND is_online
  function MarkOfflineStale(db: Db, now: nat): Db {
    db.(proxies := map p | p in db.proxies ::
      if db.proxies[p].online && SilentFor(db.proxies[p], now, OfflineAfter)
      then db.proxies[p].(online := false) else db.proxies[p])
  }

  predicate Removable(p: Proxy, now: nat) { !p.online && SilentFor(p, now, RemovedAfter) }

  // DELETE ... WHERE is_online = FALSE AND last_seen < NOW() - INTERVAL '4 hours'
  function DeleteOfflineStale(db: Db, now: nat): Db {
    var kept := map p | p in db.proxies && !Removable(db.proxies[p], now) :: db.proxies[p];
    db.(proxies := kept, links := set l | l in db.links && l.proxy in kept)
  }

  // ---- The tables in place ----

  class Database {
    var configs: map<Id, Config>
    var proxies: map<Id, Proxy>
    var links: set<Link>

    ghost function Tables(): Db
      reads this
    {
      Db(configs, proxies, links)
    }

    constructor ()
      ensures Tables() == Db(map[], map[], {})
    {
      configs, proxies, links := map[], map[], {};
    }
  }
}
