/**
ConfigService and the assignment half of ProxyService over mutable tables. Every method
leaves the tables as its specification in Lifecycle says.
*/
module ConfigService {
  import opened Text
  import opened Rules
  import opened Sorting
  import opened ConfigFiles
  import opened Store
  import Lifecycle

  lemma AdmitsSnoc<T, K>(rows: seq<T>, i: nat, fits: T -> bool, key: T -> K)
    requires i < |rows| && Admits(rows[..i], fits, key) && fits(rows[i])
    requires forall j :: 0 <= j < i ==> key(rows[j]) != key(rows[i])
    ensures Admits(rows[..i + 1], fits, key)
  {
    var s := rows[..i + 1];
    assert s == rows[..i] + [rows[i]];
    forall x, y | 0 <= x < y < |s| ensures key(s[x]) != key(s[y]) {
      if y < i { assert rows[..i][x] == s[x] && rows[..i][y] == s[y]; }
    }
  }

  // Row by row, as the inserts run: the first row that breaks a constraint ends the loop.
  method InsertRows<T, K(==)>(rows: seq<T>, fits: T -> bool, key: T -> K) returns (ok: bool)
    ensures ok <==> Admits(rows, fits, key)
  {
    var taken: set<K> := {};
    for i := 0 to |rows|
      invariant Admits(rows[..i], fits, key)
      invariant forall j :: 0 <= j < i ==> key(rows[j]) in taken
      invariant forall k :: k in taken ==> exists j :: 0 <= j < i && key(rows[j]) == k
    {
      if !fits(rows[i]) || key(rows[i]) in taken {
        assert rows[i] in rows;
        return false;
      }
      AdmitsSnoc(rows, i, fits, key);
      taken := taken + {key(rows[i])};
    }
    assert rows[..|rows|] == rows;
    ok := true;
  }

  method InsertRules(rs: RuleSet) returns (ok: bool)
    ensures ok <==> Storable(rs)
  {
    ok := InsertRows(rs.domains, DomainFits, DomainKey);
    if !ok { return; }
    ok := InsertRows(rs.ipRanges, CidrFits, CidrKey);
    if !ok { return; }
    ok := InsertRows(rs.parents, ParentFits, ParentKey);
    if !ok { return; }
    ok := InsertRows(rs.acl, AclFits, AclKey);
  }

  // SELECT ... ORDER BY priority, into slices.
  method ListRules(rs: RuleSet) returns (doms: array<DomainRule>, ips: array<IPRangeRule>,
                                         parents: array<ParentProxy>, acl: array<ClientACLRule>)
    ensures fresh(doms) && fresh(ips) && fresh(parents) && fresh(acl)
    ensures SortOf(doms[..], rs.domains, DomainPriority) && SortOf(ips[..], rs.ipRanges, IpPriority)
    ensures SortOf(parents[..], rs.parents, ParentPriority) && SortOf(acl[..], rs.acl, AclPriority)
  {
    doms := ListByConfig(rs.domains, DomainPriority);
    ips := ListByConfig(rs.ipRanges, IpPriority);
    parents := ListByConfig(rs.parents, ParentPriority);
    acl := ListByConfig(rs.acl, AclPriority);
  }

  method ListByConfig<T>(rows: seq<T>, key: T -> int) returns (a: array<T>)
    ensures fresh(a) && SortOf(a[..], rows, key)
  {
    a := new T[|rows|](i requires 0 <= i < |rows| => rows[i]);
    assert a[..] == rows;
    SortSlice(a, key);
  }

  // The files of a rule set, generated from its stored rows.
  method FilesFor(rs: RuleSet) returns (f: Files)
    ensures IsGeneration(rs, f)
  {
    var doms, ips, parents, acl := ListRules(rs);
    ghost var read := RuleSet(rs.defaultAction, doms[..], ips[..], parents[..], acl[..]);
    f := GenerateConfigFiles(ips, doms, parents, acl, rs.defaultAction);
    SameRowsSameGenerations(read, rs, f);
  }

  // And their hash.
  method HashRules(rs: RuleSet) returns (h: Hash)
    ensures exists f :: IsGeneration(rs, f) && h == HashOf(f)
  {
    var doms, ips, parents, acl := ListRules(rs);
    ghost var read := RuleSet(rs.defaultAction, doms[..], ips[..], parents[..], acl[..]);
    h := GenerateConfigHash(ips, doms, parents, acl, rs.defaultAction);
    ghost var f :| IsGeneration(read, f) && h == HashOf(f);
    SameRowsSameGenerations(read, rs, f);
  }

  class ConfigService {
    const db: Database

    constructor (db: Database)
      ensures this.db == db
    {
      this.db := db;
    }

    // Inserts the links of one config; an unknown proxy breaks the foreign key.
    method AssignAll(id: Id, pids: seq<Id>) returns (ok: bool)
      modifies db`links
      ensures ok <==> forall p :: p in pids ==> p in db.proxies
      ensures ok ==> db.links == old(db.links) + Lifecycle.LinksTo(id, pids)
    {
      for i := 0 to |pids|
        invariant forall p :: p in pids[..i] ==> p in db.proxies
        invariant db.links == old(db.links) + Lifecycle.LinksTo(id, pids[..i])
      {
        if pids[i] !in db.proxies { return false; }
        db.links := db.links + {Link(id, pids[i])};
        assert pids[..i + 1] == pids[..i] + [pids[i]];
      }
      assert pids[..|pids|] == pids;
      ok := true;
    }

    // One transaction: everything, or nothing.
    method Create(id: Id, req: Lifecycle.Request, user: Id) returns (err: Option<Error>)
      requires id !in db.configs
      modifies db
      ensures db.Tables() == Lifecycle.Create(old(db.Tables()), id, req, user).db
      ensures err == Lifecycle.Create(old(db.Tables()), id, req, user).err
    {
      if req.name == "" { return Some(BadRequest); }
      var rules := Lifecycle.WithDefault(req.rules);
      var problems := ValidateRules(rules);
      if problems != [] { return Some(BadRequest); }
      if rules.acl == [] { rules := rules.(acl := Lifecycle.DefaultAcl()); }
      assert rules == Lifecycle.CreateRules(req.rules);

      var before := db.links;
      var stored := InsertRules(rules);
      var linked := AssignAll(id, req.proxyIds);
      if |req.name| > 255 || !stored || !linked {
        db.links := before;
        return Some(Constraint);
      }
      db.configs := db.configs[id := Lifecycle.NewConfig(req.name, 1, rules, user)];
      err := None;
    }

    method Update(id: Id, req: Lifecycle.Request) returns (err: Option<Error>)
      modifies db
      ensures db.Tables() == Lifecycle.Update(old(db.Tables()), id, req).db
      ensures err == Lifecycle.Update(old(db.Tables()), id, req).err
    {
      var rules := Lifecycle.WithDefault(req.rules);
      var problems := ValidateRules(rules);
      if problems != [] { return Some(BadRequest); }
      if id !in db.configs { return Some(NotFound); }
      if db.configs[id].status != Draft { return Some(InvalidStatus); }

      var before := db.links;
      db.links := set l | l in db.links && l.config != id;
      var stored := InsertRules(rules);
      var linked := AssignAll(id, req.proxyIds);
      if |req.name| > 255 || !stored || !linked {
        db.links := before;
        return Some(Constraint);
      }
      db.configs := db.configs[id := db.configs[id].(name := req.name, rules := rules)];
      err := None;
    }

    // The copied rules are the rows of the source in the order the queries returned them.
    method Clone(src: Id, id: Id, user: Id) returns (err: Option<Error>, ghost rules: RuleSet)
      requires id !in db.configs && forall l :: l in db.links ==> l.proxy in db.proxies
      modifies db
      ensures src in old(db.configs) ==> SameRows(old(db.configs)[src].rules, rules)
      ensures db.Tables() == Lifecycle.Clone(old(db.Tables()), src, id, user, rules).db
      ensures err == Lifecycle.Clone(old(db.Tables()), src, id, user, rules).err
    {
      if src !in db.configs {
        rules := RuleSet("", [], [], [], []);
        return Some(NotFound), rules;
      }
      var original := db.configs[src];
      var doms, ips, parents, acl := ListRules(original.rules);
      var copied := RuleSet(original.rules.defaultAction, doms[..], ips[..], parents[..], acl[..]);
      rules := copied;
      CopyLinks(src, id);
      db.configs := db.configs[id := Lifecycle.NewConfig(original.name, original.version + 1, copied, user)];
      err := None;
    }

    method CopyLinks(src: Id, id: Id)
      modifies db`links
      ensures db.links == old(db.links) + Lifecycle.CopiedLinks(old(db.Tables()), src, id)
    {
      var todo := set l | l in db.links && l.config == src :: l.proxy;
      ghost var all := todo;
      assert all == Lifecycle.LinkedProxies(old(db.Tables()), src);
      while todo != {}
        invariant todo <= all
        invariant db.links == old(db.links) + set p | p in all - todo :: Link(id, p)
      {
        var p :| p in todo;
        db.links := db.links + {Link(id, p)};
        todo := todo - {p};
      }
      assert all - todo == all;
    }

    method Submit(id: Id, user: Id) returns (err: Option<Error>)
      modifies db
      ensures db.Tables() == Lifecycle.Submit(old(db.Tables()), id, user).db
      ensures err == Lifecycle.Submit(old(db.Tables()), id, user).err
    {
      if id !in db.configs || db.configs[id].status != Draft { return Some(InvalidStatus); }
      db.configs := db.configs[id := db.configs[id].(status := PendingApproval, submittedBy := Some(user))];
      err := None;
    }

    // The nested IN queries: the proxies of id, then the configs of those proxies.
    method DeactivateOthers(id: Id)
      modifies db`configs
      ensures db.Tables() == Store.DeactivateOthers(old(db.Tables()), id)
    {
      var mine := set l | l in db.links && l.config == id :: l.proxy;
      var sharing := set l | l in db.links && l.proxy in mine :: l.config;
      assert forall c :: c in sharing <==> ShareProxy(db.Tables(), id, c) by { SharingIsShare(db.Tables(), id, mine, sharing); }
      db.configs := map c | c in db.configs ::
        if db.configs[c].status == Active && c != id && c in sharing then db.configs[c].(status := Approved) else db.configs[c];
    }

    method GenerateHash(id: Id) returns (h: Hash, ghost f: Files)
      requires id in db.configs
      ensures h == HashOf(f) && IsGeneration(db.configs[id].rules, f)
    {
      h := HashRules(db.configs[id].rules);
      f :| IsGeneration(db.configs[id].rules, f) && h == HashOf(f);
    }

    // UPDATE ... SET status = 'active', with the approval and the hash.
    method SetActive(id: Id, user: Id, now: nat, hash: Hash)
      requires id in db.configs
      modifies db`configs
      ensures db.Tables() == Lifecycle.SetActive(old(db.Tables()), id, user, now, hash)
    {
      db.configs := db.configs[id := db.configs[id].(status := Active, approvedBy := Some(user), approvedAt := Some(now), hash := hash)];
    }

    // Guards, hash, deactivation, activation. When it stops between the two updates, the
    // tables are those of ApproveStopped.
    method Approve(id: Id, user: Id, now: nat, stops: bool) returns (err: Option<Error>, ghost f: Files)
      modifies db
      ensures Lifecycle.ApproveGuard(old(db.Tables()), id, user).None? ==> IsGeneration(old(db.configs)[id].rules, f)
      ensures Lifecycle.ApproveGuard(old(db.Tables()), id, user).Some? || !stops ==>
        db.Tables() == Lifecycle.Approve(old(db.Tables()), id, user, now, HashOf(f)).db &&
        err == Lifecycle.Approve(old(db.Tables()), id, user, now, HashOf(f)).err
      ensures stops ==> db.Tables() == Lifecycle.ApproveStopped(old(db.Tables()), id, user)
    {
      f := Files("", "", "");
      if id !in db.configs { return Some(NotFound), f; }
      if db.configs[id].status != PendingApproval { return Some(InvalidStatus), f; }
      if db.configs[id].submittedBy != Some(user) { return Some(Forbidden), f; }
      var hash;
      hash, f := GenerateHash(id);
      DeactivateOthers(id);
      if stops { return None, f; }
      SetActive(id, user, now, hash);
      err := None;
    }

    method Reject(id: Id) returns (err: Option<Error>)
      modifies db
      ensures db.Tables() == Lifecycle.Reject(old(db.Tables()), id).db
      ensures err == Lifecycle.Reject(old(db.Tables()), id).err
    {
      if id !in db.configs || db.configs[id].status != PendingApproval { return Some(InvalidStatus); }
      db.configs := db.configs[id := db.configs[id].(status := Draft, submittedBy := None)];
      err := None;
    }

    method Delete(id: Id) returns (err: Option<Error>)
      modifies db
      ensures db.Tables() == Lifecycle.Delete(old(db.Tables()), id).db
      ensures err == Lifecycle.Delete(old(db.Tables()), id).err
    {
      if id !in db.configs { return Some(NotFound); }
      if db.configs[id].status == Active { return Some(BadRequest); }
      if db.configs[id].approvedAt.Some? { return Some(BadRequest); }
      if exists p :: p in db.proxies && db.proxies[p].configId == Some(id) { return Some(Constraint); }
      db.configs := map c | c in db.configs && c != id :: db.configs[c];
      db.links := set l | l in db.links && l.config != id;
      err := None;
    }

    method AssignConfig(p: Id, c: Option<Id>, stops: bool) returns (err: Option<Error>)
      modifies db
      ensures !stops ==> db.Tables() == Lifecycle.Assign(old(db.Tables()), p, c).db && err == Lifecycle.Assign(old(db.Tables()), p, c).err
      ensures stops ==> db.Tables() == Lifecycle.AssignStopped(old(db.Tables()), p, c)
    {
      if p !in db.proxies { return Some(NotFound); }
      if c.Some? {
        if c.value !in db.configs { return Some(NotFound); }
        if db.configs[c.value].status != Active { return Some(BadRequest); }
      }
      db.links := set l | l in db.links && l.proxy != p;
      if stops { return None; }
      if c.Some? { db.links := db.links + {Link(c.value, p)}; }
      err := None;
    }

    method DeleteProxy(p: Id) returns (err: Option<Error>)
      modifies db
      ensures db.Tables() == Lifecycle.DeleteProxy(old(db.Tables()), p).db
      ensures err == Lifecycle.DeleteProxy(old(db.Tables()), p).err
    {
      if p !in db.proxies { return Some(NotFound); }
      db.proxies := map q | q in db.proxies && q != p :: db.proxies[q];
      db.links := set l | l in db.links && l.proxy != p;
      err := None;
    }
  }

  lemma SharingIsShare(db: Db, id: Id, mine: set<Id>, sharing: set<Id>)
    requires mine == set l | l in db.links && l.config == id :: l.proxy
    requires sharing == set l | l in db.links && l.proxy in mine :: l.config
    ensures forall c :: c in sharing <==> ShareProxy(db, id, c)
  {
    forall c | ShareProxy(db, id, c) ensures c in sharing {
      var p :| Link(id, p) in db.links && Link(c, p) in db.links;
      assert Link(id, p).proxy in mine && Link(c, p).config in sharing;
    }
  }
}
