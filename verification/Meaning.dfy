/** From rules to machines: what the files of a rule set decide, and where they were loaded. */
module Meaning {
  import opened Text
  import opened NetAddr
  import opened CidrRange
  import opened Rules
  import opened Sorting
  import opened Matching
  import opened ParentConfig
  import opened Routing
  import SniYaml
  import IpAllow
  import opened ConfigFiles
  import opened Ties
  import opened Store
  import opened Lifecycle
  import opened Sync
  import opened Protocol
  import opened ProtocolFacts

  // ---- What the rules ask, in full ----

  // Of the address rules that cover the destination, one of the smallest priority number.
  ghost predicate IpWins(rs: RuleSet, d: Destination, w: IPRangeRule) {
    && w in rs.ipRanges && d.addr.Some? && Denotes(w.cidr, d.addr.value)
    && forall r :: r in rs.ipRanges && Denotes(r.cidr, d.addr.value) ==> w.priority <= r.priority
  }

  // Of the domain rules that name the host, likewise.
  ghost predicate DomainWins(rs: RuleSet, d: Destination, w: DomainRule) {
    && w in rs.domains && RuleMatchesHost(w.domain, d.host)
    && forall r :: r in rs.domains && RuleMatchesHost(r.domain, d.host) ==> w.priority <= r.priority
  }

  ghost predicate Goes(action: string, us: seq<Upstream>, route: Route) {
    route == if action == "parent" && us != [] then ViaParents(us) else GoDirect
  }

  lemma IpBest(rs: RuleSet, d: Destination, w: IPRangeRule)
    ensures Best(rs.ipRanges, w, IpHit(d), IpPriority) <==> IpWins(rs, d, w)
  {
  }

  lemma DomainBest(rs: RuleSet, d: Destination, w: DomainRule)
    ensures Best(rs.domains, w, DomainHit(d), DomainPriority) <==> DomainWins(rs, d, w)
  {
  }

  ghost predicate IpCovers(rs: RuleSet, d: Destination) {
    exists r :: r in rs.ipRanges && d.addr.Some? && Denotes(r.cidr, d.addr.value)
  }

  ghost predicate DomainNames(rs: RuleSet, d: Destination) {
    exists r :: r in rs.domains && RuleMatchesHost(r.domain, d.host)
  }

  ghost predicate IpAsks(rs: RuleSet, us: seq<Upstream>, d: Destination, route: Route) {
    exists w :: IpWins(rs, d, w) && Goes(w.action, us, route)
  }

  ghost predicate DomainAsks(rs: RuleSet, us: seq<Upstream>, d: Destination, route: Route) {
    exists w :: DomainWins(rs, d, w) && Goes(w.action, us, route)
  }

  // Infrastructure direct, then the address rules, then the domain rules, then the default.
  ghost predicate AsAsked(rs: RuleSet, us: seq<Upstream>, d: Destination, route: Route) {
    if InfraDest(d) then route == GoDirect
    else if IpCovers(rs, d) then IpAsks(rs, us, d, route)
    else if DomainNames(rs, d) then DomainAsks(rs, us, d, route)
    else Goes(rs.defaultAction, us, route)
  }

  lemma IpPart(rs: RuleSet, us: seq<Upstream>, d: Destination, route: Route)
    ensures AnyHit(rs.ipRanges, IpHit(d)) <==> IpCovers(rs, d)
    ensures (exists w :: Best(rs.ipRanges, w, IpHit(d), IpPriority) && route == RouteFor(w.action, us)) <==> IpAsks(rs, us, d, route)
  {
    forall w ensures Best(rs.ipRanges, w, IpHit(d), IpPriority) <==> IpWins(rs, d, w) { IpBest(rs, d, w); }
  }

  lemma DomainPart(rs: RuleSet, us: seq<Upstream>, d: Destination, route: Route)
    ensures AnyHit(rs.domains, DomainHit(d)) <==> DomainNames(rs, d)
    ensures (exists w :: Best(rs.domains, w, DomainHit(d), DomainPriority) && route == RouteFor(w.action, us)) <==> DomainAsks(rs, us, d, route)
  {
    forall w ensures Best(rs.domains, w, DomainHit(d), DomainPriority) <==> DomainWins(rs, d, w) { DomainBest(rs, d, w); }
  }

  // The reference decision is that.
  lemma ReferenceIsAsked(rs: RuleSet, us: seq<Upstream>, d: Destination, route: Route)
    ensures ReferenceRoute(rs, us, d, route) <==> AsAsked(rs, us, d, route)
  {
    IpPart(rs, us, d, route);
    DomainPart(rs, us, d, route);
  }

  // Of the client rules that match, one of the smallest priority number; else no.
  ghost predicate AclWins(acl: seq<ClientACLRule>, a: Bytes, w: ClientACLRule) {
    && w in acl && Denotes(w.cidr, a)
    && forall r :: r in acl && Denotes(r.cidr, a) ==> w.priority <= r.priority
  }

  ghost predicate AllowedAsAsked(acl: seq<ClientACLRule>, a: Bytes, allow: bool) {
    if exists r :: r in acl && Denotes(r.cidr, a) then exists w :: AclWins(acl, a, w) && allow == (w.action == "allow")
    else !allow
  }

  lemma AclBest(acl: seq<ClientACLRule>, a: Bytes, w: ClientACLRule)
    ensures Best(acl, w, IpAllow.AclHit(a), AclPriority) <==> AclWins(acl, a, w)
  {
  }

  lemma AccessIsAsked(acl: seq<ClientACLRule>, a: Bytes, allow: bool)
    ensures IpAllow.ReferenceAccess(acl, a, allow) <==> AllowedAsAsked(acl, a, allow)
  {
    forall w ensures Best(acl, w, IpAllow.AclHit(a), AclPriority) <==> AclWins(acl, a, w) { AclBest(acl, a, w); }
    assert AnyHit(acl, IpAllow.AclHit(a)) <==> exists r :: r in acl && Denotes(r.cidr, a);
  }

  // The rows, by ascending priority number.
  ghost predicate ParentsInOrder(ps: seq<ParentProxy>, rows: seq<ParentProxy>) {
    multiset(ps) == multiset(rows) && forall i, j :: 0 <= i < j < |ps| ==> ps[i].priority <= ps[j].priority
  }

  lemma SortedIsInOrder(ps: seq<ParentProxy>, rows: seq<ParentProxy>)
    ensures SortOf(ps, rows, ParentPriority) <==> ParentsInOrder(ps, rows)
  {
    assert forall p: ParentProxy :: ParentPriority(p) == p.priority;
  }

  // ---- What the files do ----

  // parent.config routes a destination as the rules do, with the enabled parents in
  // priority order.
  ghost predicate RoutesAs(rs: RuleSet, f: Files, d: Destination) {
    exists ps, es, route ::
      ParentsInOrder(ps, rs.parents) && ParseParentConfig(f.parent) == Some(es) &&
      FirstMatch(es, d) == Some(route) && AsAsked(rs, ParentConfig.Enabled(ps), d, route)
  }

  // ip_allow.yaml admits a client as the rules do.
  ghost predicate AdmitsAs(rs: RuleSet, f: Files, a: Bytes) {
    exists bs, allow ::
      IpAllow.ParseAllow(f.allow) == Some(bs) && IpAllow.Admits(bs, a) == Some(allow) && AllowedAsAsked(rs.acl, a, allow)
  }

  // sni.yaml tunnels the hosts of the direct domain rules.
  ghost predicate TunnelsAs(rs: RuleSet, f: Files, host: string) {
    exists names ::
      SniYaml.ParseSni(f.sni) == Some(names) && (SniYaml.Tunnelled(names, host) <==> SniYaml.NamedDirect(rs.domains, host))
  }

  ghost predicate HarmlessRanges(rs: RuleSet) { forall r :: r in rs.ipRanges ==> HarmlessRange(r.cidr) }

  lemma GenerationRoutes(rs: RuleSet, f: Files, d: Destination)
    requires Valid(rs) && HarmlessRanges(rs) && IsGeneration(rs, f)
    ensures RoutesAs(rs, f, d)
  {
    var p :| OrderOf(p, rs) && f == FilesOf(p, rs.defaultAction);
    var es, route := RoutingPreserved(rs, p.ips, p.doms, p.ps, d);
    ReferenceIsAsked(rs, ParentConfig.Enabled(p.ps), d, route);
    SortedIsInOrder(p.ps, rs.parents);
  }

  lemma GenerationAdmits(rs: RuleSet, f: Files, a: Bytes)
    requires Valid(rs) && IsGeneration(rs, f) && IsAddr(a)
    ensures AdmitsAs(rs, f, a)
  {
    var p :| OrderOf(p, rs) && f == FilesOf(p, rs.defaultAction);
    var bs, allow := IpAllow.AccessPreserved(rs.acl, p.acl, a);
    AccessIsAsked(rs.acl, a, allow);
  }

  lemma GenerationTunnels(rs: RuleSet, f: Files, host: string)
    requires Valid(rs) && IsGeneration(rs, f)
    ensures TunnelsAs(rs, f, host)
  {
    var p :| OrderOf(p, rs) && f == FilesOf(p, rs.defaultAction);
    var names := SniYaml.TunnelledIffDirect(rs.domains, p.sniDoms, host);
  }

  // Routing where no truncated block does harm, access and tunnelling in any case.
  ghost predicate Decided(rs: RuleSet, f: Files, d: Destination, a: Bytes) {
    (HarmlessRanges(rs) ==> RoutesAs(rs, f, d)) && AdmitsAs(rs, f, a) && TunnelsAs(rs, f, d.host)
  }

  // Every possible output of the generator means what the rules mean.
  lemma GenerationMeans(rs: RuleSet, f: Files, d: Destination, a: Bytes)
    requires Valid(rs) && IsGeneration(rs, f) && IsAddr(a)
    ensures Decided(rs, f, d, a)
  {
    if HarmlessRanges(rs) { GenerationRoutes(rs, f, d); }
    GenerationAdmits(rs, f, a);
    GenerationTunnels(rs, f, d.host);
  }

  // A proxy reported in sync has loaded files that decide as the rules of its active config,
  // if the ties of the rules they came from are harmless.
  lemma InSyncDecides(start: World, ss: seq<Step>, p: Id, c: Id, d: Destination, a: Bytes) returns (l: Load)
    requires Start(start) && IsRun(start, ss)
    requires p in After(start, ss).db.proxies && IsActive(After(start, ss).db, c)
    requires InSync(After(start, ss).db.configs[c], After(start, ss).db.proxies[p].hash)
    requires TiesHarmless(After(start, ss).db.configs[c].rules) && IsAddr(a)
    ensures l.host == After(start, ss).db.proxies[p].hostname && l.hash == After(start, ss).db.proxies[p].hash
    ensures HeldDuring(start, ss, l)
    ensures var rs := After(start, ss).db.configs[c].rules;
            (TiesHarmless(l.rules) ==> Decided(rs, l.files, d, a))
  {
    var f := GenerationExists(After(start, ss).db.configs[c].rules);
    l := InSyncWasLoaded(start, ss, p, c, f);
    ActiveMeans(start, ss, c, f, d, a);
  }

  lemma ActiveMeans(start: World, ss: seq<Step>, c: Id, f: Files, d: Destination, a: Bytes)
    requires Start(start) && IsRun(start, ss) && c in After(start, ss).db.configs
    requires IsGeneration(After(start, ss).db.configs[c].rules, f) && IsAddr(a)
    ensures Decided(After(start, ss).db.configs[c].rules, f, d, a)
  {
    StartInv(start);
    RunKeepsWorld(start, ss);
    GoodRules(After(start, ss).db, c);
    GenerationMeans(After(start, ss).db.configs[c].rules, f, d, a);
  }
}
