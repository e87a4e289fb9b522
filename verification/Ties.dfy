/**
Exactly when do the stored rows determine the generated files, although rows of equal
priority have no order? A condition on ties for each file, and for the hash of all three.
*/
module Ties {
  import opened Text
  import opened Rules
  import opened CidrRange
  import opened Sorting
  import opened Determinacy
  import opened ParentConfig
  import SniYaml
  import IpAllow
  import opened ConfigFiles

  // What the UNIQUE constraints leave: a key names its row.
  ghost predicate UniqueKeys(rs: RuleSet) {
    && (forall a, b :: a in rs.domains && b in rs.domains && a.domain == b.domain ==> a == b)
    && (forall a, b :: a in rs.parents && b in rs.parents && a.address == b.address && a.port == b.port ==> a == b)
    && (forall a, b :: a in rs.acl && b in rs.acl && a.cidr == b.cidr ==> a == b)
  }

  // ---- The conditions ----

  // No two direct domain rules share a priority.
  ghost predicate SniTiesOk(rows: seq<DomainRule>) {
    forall a, b :: a in rows && b in rows && a != b && a.action == "direct" && b.action == "direct" ==>
      a.priority != b.priority
  }

  // No two client rules do.
  ghost predicate AclTiesOk(rows: seq<ClientACLRule>) {
    forall a, b :: a in rows && b in rows && a != b ==> a.priority != b.priority
  }

  // Some parent is enabled.
  ghost predicate Live(rows: seq<ParentProxy>) { exists p :: p in rows && p.enabled }

  predicate PrintsRule(action: string, live: bool) { action == "direct" || (action == "parent" && live) }

  // Address rules that tie and are printed, are printed alike.
  ghost predicate IpTiesOk(rows: seq<IPRangeRule>, live: bool) {
    forall a, b :: a in rows && b in rows && a.priority == b.priority && PrintsRule(a.action, live) && PrintsRule(b.action, live) ==>
      RangeText(a.cidr) == RangeText(b.cidr) && a.action == b.action
  }

  ghost predicate DomainTiesOk(rows: seq<DomainRule>, live: bool) {
    forall a, b :: a in rows && b in rows && a.priority == b.priority && PrintsRule(a.action, live) && PrintsRule(b.action, live) ==>
      DomainToATS(a.domain) == DomainToATS(b.domain) && a.action == b.action
  }

  // Some line lists the parents, provided any is enabled.
  ghost predicate UsesParents(rs: RuleSet) {
    || rs.defaultAction == "parent"
    || (exists r :: r in rs.ipRanges && r.action == "parent") || (exists r :: r in rs.domains && r.action == "parent")
  }

  ghost predicate ParentTiesOk(rows: seq<ParentProxy>) {
    forall a, b :: a in rows && b in rows && a != b && a.enabled && b.enabled ==> a.priority != b.priority
  }

  ghost predicate ParentFileTiesOk(rs: RuleSet) {
    && IpTiesOk(rs.ipRanges, Live(rs.parents)) && DomainTiesOk(rs.domains, Live(rs.parents))
    && (UsesParents(rs) ==> ParentTiesOk(rs.parents))
  }

  ghost predicate TiesHarmless(rs: RuleSet) {
    ParentFileTiesOk(rs) && SniTiesOk(rs.domains) && AclTiesOk(rs.acl)
  }

  lemma DistinctRows<T(!new)>(rows: seq<T>, key: T -> int)
    requires DistinctKeys(rows, key)
    ensures forall a, b :: a in rows && b in rows && key(a) == key(b) ==> a == b
  {
    forall a, b | a in rows && b in rows && key(a) == key(b) ensures a == b {
      var i :| 0 <= i < |rows| && rows[i] == a;
      var j :| 0 <= j < |rows| && rows[j] == b;
    }
  }

  lemma DistinctIsHarmless(rs: RuleSet)
    requires DistinctPriorities(rs)
    ensures TiesHarmless(rs)
  {
    DistinctRows(rs.domains, DomainPriority);
    DistinctRows(rs.ipRanges, IpPriority);
    DistinctRows(rs.parents, ParentPriority);
    DistinctRows(rs.acl, AclPriority);
    assert forall a, b :: a in rs.domains && b in rs.domains && DomainPriority(a) == DomainPriority(b) ==> a == b;
    assert forall a, b :: a in rs.ipRanges && b in rs.ipRanges && IpPriority(a) == IpPriority(b) ==> a == b;
    assert forall a, b :: a in rs.parents && b in rs.parents && ParentPriority(a) == ParentPriority(b) ==> a == b;
    assert forall a, b :: a in rs.acl && b in rs.acl && AclPriority(a) == AclPriority(b) ==> a == b;
  }

  // ---- Ties and printed items ----

  lemma AclCommute(rows: seq<ClientACLRule>)
    requires forall a, b :: a in rows && b in rows && a.cidr == b.cidr ==> a == b
    ensures TiesCommute(rows, IpAllow.AclBlock, AclPriority) <==> AclTiesOk(rows)
  {
    if TiesCommute(rows, IpAllow.AclBlock, AclPriority) {
      forall a, b | a in rows && b in rows && a.priority == b.priority ensures a == b {
        assert AclPriority(a) == AclPriority(b);
        assert (IpAllow.AclBlock(a) + IpAllow.AclBlock(b))[0] == (IpAllow.AclBlock(b) + IpAllow.AclBlock(a))[0];
      }
    }
  }

  lemma SniCommute(rows: seq<DomainRule>)
    requires forall a, b :: a in rows && b in rows && a.domain == b.domain ==> a == b
    ensures TiesCommute(rows, SniYaml.DirectName, DomainPriority) <==> SniTiesOk(rows)
  {
    if TiesCommute(rows, SniYaml.DirectName, DomainPriority) {
      forall a, b | a in rows && b in rows && a.priority == b.priority && a.action == "direct" && b.action == "direct" ensures a == b {
        assert DomainPriority(a) == DomainPriority(b);
        assert (SniYaml.DirectName(a) + SniYaml.DirectName(b))[0] == (SniYaml.DirectName(b) + SniYaml.DirectName(a))[0];
      }
    }
    if SniTiesOk(rows) {
      forall a, b | a in rows && b in rows && DomainPriority(a) == DomainPriority(b)
        ensures SniYaml.DirectName(a) + SniYaml.DirectName(b) == SniYaml.DirectName(b) + SniYaml.DirectName(a)
      {
      }
    }
  }

  lemma SniLinesCommute(rows: seq<DomainRule>)
    requires SniTiesOk(rows)
    ensures TiesCommute(rows, SniYaml.SniLines, DomainPriority)
  {
    forall a, b | a in rows && b in rows && DomainPriority(a) == DomainPriority(b)
      ensures SniYaml.SniLines(a) + SniYaml.SniLines(b) == SniYaml.SniLines(b) + SniYaml.SniLines(a)
    {
    }
  }

  lemma ParentsCommute(rows: seq<ParentProxy>)
    requires forall a, b :: a in rows && b in rows && a.address == b.address && a.port == b.port ==> a == b
    ensures TiesCommute(rows, EnabledUpstream, ParentPriority) <==> ParentTiesOk(rows)
  {
    if TiesCommute(rows, EnabledUpstream, ParentPriority) {
      forall a, b | a in rows && b in rows && a.priority == b.priority && a.enabled && b.enabled ensures a == b {
        assert ParentPriority(a) == ParentPriority(b);
        assert (EnabledUpstream(a) + EnabledUpstream(b))[0] == (EnabledUpstream(b) + EnabledUpstream(a))[0];
      }
    }
    if ParentTiesOk(rows) { ParentsCommuteIf(rows); }
  }

  lemma ParentsCommuteIf(rows: seq<ParentProxy>)
    requires ParentTiesOk(rows)
    ensures TiesCommute(rows, EnabledUpstream, ParentPriority)
  {
    forall a, b | a in rows && b in rows && ParentPriority(a) == ParentPriority(b)
      ensures EnabledUpstream(a) + EnabledUpstream(b) == EnabledUpstream(b) + EnabledUpstream(a)
    {
    }
  }

  // Two printed rules commute exactly when they are the same line.
  lemma RulesCommute(d: Dest, x: string, e: Dest, y: string, us: seq<Upstream>)
    ensures RuleEntries(d, x, us) + RuleEntries(e, y, us) == RuleEntries(e, y, us) + RuleEntries(d, x, us) <==>
            (PrintsRule(x, us != []) && PrintsRule(y, us != []) ==> d == e && x == y)
  {
    var a, b := RuleEntries(d, x, us), RuleEntries(e, y, us);
    if PrintsRule(x, us != []) && PrintsRule(y, us != []) {
      assert (a + b)[0] == a[0] && (b + a)[0] == b[0];
    } else {
      assert a == [] || b == [];
    }
  }

  lemma IpCommute(rows: seq<IPRangeRule>, us: seq<Upstream>)
    ensures TiesCommute(rows, IpEntries(us), IpPriority) <==> IpTiesOk(rows, us != [])
  {
    forall a: IPRangeRule, b: IPRangeRule
      ensures IpEntries(us)(a) + IpEntries(us)(b) == IpEntries(us)(b) + IpEntries(us)(a) <==>
              (PrintsRule(a.action, us != []) && PrintsRule(b.action, us != []) ==> RangeText(a.cidr) == RangeText(b.cidr) && a.action == b.action)
    {
      RulesCommute(DestIp(RangeText(a.cidr)), a.action, DestIp(RangeText(b.cidr)), b.action, us);
    }
  }

  lemma DomainCommute(rows: seq<DomainRule>, us: seq<Upstream>)
    ensures TiesCommute(rows, DomainEntries(us), DomainPriority) <==> DomainTiesOk(rows, us != [])
  {
    forall a: DomainRule, b: DomainRule
      ensures DomainEntries(us)(a) + DomainEntries(us)(b) == DomainEntries(us)(b) + DomainEntries(us)(a) <==>
              (PrintsRule(a.action, us != []) && PrintsRule(b.action, us != []) ==> DomainToATS(a.domain) == DomainToATS(b.domain) && a.action == b.action)
    {
      RulesCommute(DestDomain(DomainToATS(a.domain)), a.action, DestDomain(DomainToATS(b.domain)), b.action, us);
    }
  }

  // ---- Two of the files ----

  ghost predicate AllowDetermined(rows: seq<ClientACLRule>) {
    forall s, t :: SortOf(s, rows, AclPriority) && SortOf(t, rows, AclPriority) ==> IpAllow.AllowText(s) == IpAllow.AllowText(t)
  }

  ghost predicate SniDetermined(rows: seq<DomainRule>) {
    forall s, t :: SortOf(s, rows, DomainPriority) && SortOf(t, rows, DomainPriority) ==> SniYaml.SniText(s) == SniYaml.SniText(t)
  }

  lemma AllowBlocks(s: seq<ClientACLRule>, t: seq<ClientACLRule>)
    requires (forall r :: r in s ==> ValidAcl(r)) && (forall r :: r in t ==> ValidAcl(r)) && |s| == |t|
    requires IpAllow.AllowText(s) == IpAllow.AllowText(t)
    ensures FlatMap(IpAllow.AclBlock, s) == FlatMap(IpAllow.AclBlock, t)
  {
    IpAllow.ParseAllowText(s);
    IpAllow.ParseAllowText(t);
    SameEnd(FlatMap(IpAllow.AclBlock, s), FlatMap(IpAllow.AclBlock, t), IpAllow.DenyAll());
  }

  lemma SameEnd<E>(a: seq<E>, b: seq<E>, c: seq<E>)
    requires a + c == b + c
    ensures a == b
  {
    assert |a + c| == |b + c|;
    assert (a + c)[..|a|] == a && (b + c)[..|a|] == b;
  }

  lemma SameStart<E>(a: seq<E>, b: seq<E>, c: seq<E>)
    requires a + b == a + c
    ensures b == c
  {
    assert (a + b)[|a|..] == b && (a + c)[|a|..] == c;
  }

  // The client rules determine ip_allow.yaml if and only if no two share a priority.
  lemma AllowDeterminedIff(rs: RuleSet)
    requires Valid(rs) && UniqueKeys(rs)
    ensures AllowDetermined(rs.acl) <==> AclTiesOk(rs.acl)
  {
    AclCommute(rs.acl);
    DeterminedIff(rs.acl, IpAllow.AclBlock, AclPriority);
    if AllowDetermined(rs.acl) {
      forall s, t | SortOf(s, rs.acl, AclPriority) && SortOf(t, rs.acl, AclPriority)
        ensures FlatMap(IpAllow.AclBlock, s) == FlatMap(IpAllow.AclBlock, t)
      {
        SameElements(s, rs.acl);
        SameElements(t, rs.acl);
        AllowBlocks(s, t);
      }
    }
  }

  // The domain rules determine sni.yaml if and only if no two direct ones share a priority.
  lemma SniDeterminedIff(rs: RuleSet)
    requires Valid(rs) && UniqueKeys(rs)
    ensures SniDetermined(rs.domains) <==> SniTiesOk(rs.domains)
  {
    SniCommute(rs.domains);
    DeterminedIff(rs.domains, SniYaml.DirectName, DomainPriority);
    if SniTiesOk(rs.domains) { SniFollows(rs.domains); }
    if SniDetermined(rs.domains) {
      forall s, t | SortOf(s, rs.domains, DomainPriority) && SortOf(t, rs.domains, DomainPriority)
        ensures FlatMap(SniYaml.DirectName, s) == FlatMap(SniYaml.DirectName, t)
      {
        SameElements(s, rs.domains);
        SameElements(t, rs.domains);
        SniYaml.ParseSniText(s);
        SniYaml.ParseSniText(t);
      }
    }
  }

  lemma SniFollows(rows: seq<DomainRule>)
    requires SniTiesOk(rows)
    ensures SniDetermined(rows)
  {
    SniLinesCommute(rows);
    DeterminedIff(rows, SniYaml.SniLines, DomainPriority);
  }

  lemma AllowFollows(rows: seq<ClientACLRule>)
    requires AclTiesOk(rows)
    ensures AllowDetermined(rows)
  {
    assert TiesCommute(rows, IpAllow.AclBlock, AclPriority) by {
      forall a, b | a in rows && b in rows && AclPriority(a) == AclPriority(b)
        ensures IpAllow.AclBlock(a) + IpAllow.AclBlock(b) == IpAllow.AclBlock(b) + IpAllow.AclBlock(a)
      {
      }
    }
    DeterminedIff(rows, IpAllow.AclBlock, AclPriority);
  }

  // ---- parent.config ----

  // The rows that parent.config is printed from, in order.
  datatype ParentRows = ParentRows(ips: seq<IPRangeRule>, doms: seq<DomainRule>, ps: seq<ParentProxy>)

  ghost predicate ParentOrder(p: ParentRows, rs: RuleSet) {
    && SortOf(p.ips, rs.ipRanges, IpPriority) && SortOf(p.doms, rs.domains, DomainPriority)
    && SortOf(p.ps, rs.parents, ParentPriority)
  }

  function EntriesOfRows(p: ParentRows, default: string): seq<Entry> {
    UserEntries(p.ips, p.doms, Enabled(p.ps), default)
  }

  function TextOfRows(p: ParentRows, default: string): string { ParentText(p.ips, p.doms, p.ps, default) }

  ghost predicate ParentDetermined(rs: RuleSet) {
    forall p, q :: ParentOrder(p, rs) && ParentOrder(q, rs) ==>
      TextOfRows(p, rs.defaultAction) == TextOfRows(q, rs.defaultAction)
  }

  lemma LiveIsEnabled(ps: seq<ParentProxy>, rows: seq<ParentProxy>)
    requires multiset(ps) == multiset(rows)
    ensures Enabled(ps) != [] <==> Live(rows)
  {
    SameElements(ps, rows);
    if Enabled(ps) != [] {
      var u := Enabled(ps)[0];
      assert u in Enabled(ps);
      FlatMapFrom(EnabledUpstream, ps, u);
    }
    if Live(rows) {
      var p :| p in rows && p.enabled;
      FlatMapFrom(EnabledUpstream, ps, Upstream(p.address, p.port));
    }
  }

  lemma {:induction false} SameItems<T, E>(f: T -> seq<E>, g: T -> seq<E>, rows: seq<T>)
    requires forall r :: r in rows ==> f(r) == g(r)
    ensures FlatMap(f, rows) == FlatMap(g, rows)
  {
    if rows != [] {
      assert rows[0] in rows && forall r :: r in rows[1..] ==> r in rows;
      SameItems(f, g, rows[1..]);
    }
  }

  // Where no line lists the parents, their order does not matter.
  lemma EntriesIgnoreParents(p: ParentRows, rs: RuleSet, us: seq<Upstream>, vs: seq<Upstream>)
    requires ParentOrder(p, rs) && !UsesParents(rs) && (us == [] <==> vs == [])
    ensures UserEntries(p.ips, p.doms, us, rs.defaultAction) == UserEntries(p.ips, p.doms, vs, rs.defaultAction)
  {
    SameElements(p.ips, rs.ipRanges);
    SameElements(p.doms, rs.domains);
    SameItems(IpEntries(us), IpEntries(vs), p.ips);
    SameItems(DomainEntries(us), DomainEntries(vs), p.doms);
  }

  // For one list of parents the order of tied rules does not matter.
  lemma EntriesIgnoreTies(p: ParentRows, q: ParentRows, rs: RuleSet, us: seq<Upstream>)
    requires ParentOrder(p, rs) && ParentOrder(q, rs)
    requires IpTiesOk(rs.ipRanges, us != []) && DomainTiesOk(rs.domains, us != [])
    ensures UserEntries(p.ips, p.doms, us, rs.defaultAction) == UserEntries(q.ips, q.doms, us, rs.defaultAction)
  {
    IpCommute(rs.ipRanges, us);
    DomainCommute(rs.domains, us);
    DeterminedIff(rs.ipRanges, IpEntries(us), IpPriority);
    DeterminedIff(rs.domains, DomainEntries(us), DomainPriority);
  }

  lemma SameParents(p: ParentRows, q: ParentRows, rs: RuleSet)
    requires ParentOrder(p, rs) && ParentOrder(q, rs) && ParentTiesOk(rs.parents)
    ensures Enabled(p.ps) == Enabled(q.ps)
  {
    ParentsCommuteIf(rs.parents);
    DeterminedIff(rs.parents, EnabledUpstream, ParentPriority);
  }

  lemma HarmlessEntries(p: ParentRows, q: ParentRows, rs: RuleSet)
    requires ParentOrder(p, rs) && ParentOrder(q, rs) && ParentFileTiesOk(rs)
    ensures EntriesOfRows(p, rs.defaultAction) == EntriesOfRows(q, rs.defaultAction)
  {
    var us, vs := Enabled(p.ps), Enabled(q.ps);
    LiveIsEnabled(p.ps, rs.parents);
    LiveIsEnabled(q.ps, rs.parents);
    EntriesIgnoreTies(p, q, rs, us);
    if UsesParents(rs) {
      SameParents(p, q, rs);
    } else {
      EntriesIgnoreParents(q, rs, us, vs);
    }
  }

  lemma ParentFollows(rs: RuleSet)
    requires ParentFileTiesOk(rs)
    ensures ParentDetermined(rs)
  {
    forall p, q | ParentOrder(p, rs) && ParentOrder(q, rs)
      ensures TextOfRows(p, rs.defaultAction) == TextOfRows(q, rs.defaultAction)
    {
      HarmlessEntries(p, q, rs);
    }
  }

  // Equal texts have equal entries.
  lemma EqualTexts(p: ParentRows, q: ParentRows, rs: RuleSet)
    requires Valid(rs) && ParentOrder(p, rs) && ParentOrder(q, rs)
    requires TextOfRows(p, rs.defaultAction) == TextOfRows(q, rs.defaultAction)
    ensures EntriesOfRows(p, rs.defaultAction) == EntriesOfRows(q, rs.defaultAction)
  {
    RowsParse(p, rs);
    RowsParse(q, rs);
    SameStart(EntriesOf(Infra()), EntriesOfRows(p, rs.defaultAction), EntriesOfRows(q, rs.defaultAction));
  }

  lemma RowsParse(p: ParentRows, rs: RuleSet)
    requires Valid(rs) && ParentOrder(p, rs)
    ensures ParseParentConfig(TextOfRows(p, rs.defaultAction)) == Some(EntriesOf(Infra()) + EntriesOfRows(p, rs.defaultAction))
  {
    SameElements(p.ips, rs.ipRanges);
    SameElements(p.doms, rs.domains);
    SameElements(p.ps, rs.parents);
    ParseParentText(p.ips, p.doms, p.ps, rs.defaultAction);
  }

  // Some order of the parent rows, to hold fast while another list varies.
  lemma SomeParentOrder(rs: RuleSet) returns (p: ParentRows)
    ensures ParentOrder(p, rs)
  {
    var ips := SomeSort(rs.ipRanges, IpPriority);
    var doms := SomeSort(rs.domains, DomainPriority);
    var ps := SomeSort(rs.parents, ParentPriority);
    p := ParentRows(ips, doms, ps);
  }

  lemma DeterminedIps(rs: RuleSet, p: ParentRows)
    requires Valid(rs) && ParentDetermined(rs) && ParentOrder(p, rs)
    ensures Determined(rs.ipRanges, IpEntries(Enabled(p.ps)), IpPriority)
  {
    var us := Enabled(p.ps);
    forall s, t | SortOf(s, rs.ipRanges, IpPriority) && SortOf(t, rs.ipRanges, IpPriority)
      ensures FlatMap(IpEntries(us), s) == FlatMap(IpEntries(us), t)
    {
      var x, y := p.(ips := s), p.(ips := t);
      EqualTexts(x, y, rs);
      var rest := FlatMap(DomainEntries(us), p.doms) + [DefaultEntry(rs.defaultAction, us)];
      ConcatAssoc(FlatMap(IpEntries(us), s), FlatMap(DomainEntries(us), p.doms), [DefaultEntry(rs.defaultAction, us)]);
      ConcatAssoc(FlatMap(IpEntries(us), t), FlatMap(DomainEntries(us), p.doms), [DefaultEntry(rs.defaultAction, us)]);
      SameEnd(FlatMap(IpEntries(us), s), FlatMap(IpEntries(us), t), rest);
    }
  }

  lemma DeterminedDomains(rs: RuleSet, p: ParentRows)
    requires Valid(rs) && ParentDetermined(rs) && ParentOrder(p, rs)
    ensures Determined(rs.domains, DomainEntries(Enabled(p.ps)), DomainPriority)
  {
    var us := Enabled(p.ps);
    var head, last := FlatMap(IpEntries(us), p.ips), [DefaultEntry(rs.defaultAction, us)];
    forall s, t | SortOf(s, rs.domains, DomainPriority) && SortOf(t, rs.domains, DomainPriority)
      ensures FlatMap(DomainEntries(us), s) == FlatMap(DomainEntries(us), t)
    {
      EqualTexts(p.(doms := s), p.(doms := t), rs);
      SameEnd(head + FlatMap(DomainEntries(us), s), head + FlatMap(DomainEntries(us), t), last);
      SameStart(head, FlatMap(DomainEntries(us), s), FlatMap(DomainEntries(us), t));
    }
  }

  // A file that uses the parents shows their list.
  lemma ShowsParents(p: ParentRows, rs: RuleSet, us: seq<Upstream>)
    requires ParentOrder(p, rs) && UsesParents(rs) && us != []
    ensures exists e :: e in UserEntries(p.ips, p.doms, us, rs.defaultAction) && e.route == ViaParents(us)
  {
    SameElements(p.ips, rs.ipRanges);
    SameElements(p.doms, rs.domains);
    var es := UserEntries(p.ips, p.doms, us, rs.defaultAction);
    if rs.defaultAction == "parent" {
      assert DefaultEntry(rs.defaultAction, us) in es;
    } else if r :| r in rs.ipRanges && r.action == "parent" {
      FlatMapFrom(IpEntries(us), p.ips, IpEntries(us)(r)[0]);
      assert IpEntries(us)(r)[0] in es;
    } else {
      var r :| r in rs.domains && r.action == "parent";
      FlatMapFrom(DomainEntries(us), p.doms, DomainEntries(us)(r)[0]);
      assert DomainEntries(us)(r)[0] in es;
    }
  }

  lemma OnlyItsParents(p: ParentRows, us: seq<Upstream>, default: string, e: Entry)
    requires e in UserEntries(p.ips, p.doms, us, default)
    ensures e.route == GoDirect || e.route == ViaParents(us)
  {
    if e in FlatMap(IpEntries(us), p.ips) {
      FlatMapFrom(IpEntries(us), p.ips, e);
    } else if e in FlatMap(DomainEntries(us), p.doms) {
      FlatMapFrom(DomainEntries(us), p.doms, e);
    }
  }

  lemma SameListShown(p: ParentRows, q: ParentRows, rs: RuleSet)
    requires Valid(rs) && ParentOrder(p, rs) && ParentOrder(q, rs) && UsesParents(rs)
    requires TextOfRows(p, rs.defaultAction) == TextOfRows(q, rs.defaultAction)
    ensures Enabled(p.ps) == Enabled(q.ps)
  {
    var us, vs := Enabled(p.ps), Enabled(q.ps);
    EqualTexts(p, q, rs);
    LiveIsEnabled(p.ps, rs.parents);
    LiveIsEnabled(q.ps, rs.parents);
    if us != [] {
      ShowsParents(p, rs, us);
      var e :| e in UserEntries(p.ips, p.doms, us, rs.defaultAction) && e.route == ViaParents(us);
      OnlyItsParents(q, vs, rs.defaultAction, e);
    }
  }

  lemma DeterminedParents(rs: RuleSet)
    requires Valid(rs) && ParentDetermined(rs) && UsesParents(rs)
    ensures Determined(rs.parents, EnabledUpstream, ParentPriority)
  {
    var o := SomeParentOrder(rs);
    forall s, t | SortOf(s, rs.parents, ParentPriority) && SortOf(t, rs.parents, ParentPriority)
      ensures FlatMap(EnabledUpstream, s) == FlatMap(EnabledUpstream, t)
    {
      SameLists(rs, o, s, t);
    }
  }

  lemma SameLists(rs: RuleSet, o: ParentRows, s: seq<ParentProxy>, t: seq<ParentProxy>)
    requires Valid(rs) && ParentDetermined(rs) && UsesParents(rs) && ParentOrder(o, rs)
    requires SortOf(s, rs.parents, ParentPriority) && SortOf(t, rs.parents, ParentPriority)
    ensures FlatMap(EnabledUpstream, s) == FlatMap(EnabledUpstream, t)
  {
    var p, q := o.(ps := s), o.(ps := t);
    assert ParentOrder(p, rs) && ParentOrder(q, rs);
    SameListShown(p, q, rs);
  }

  // The rows determine parent.config if and only if no two tied rules print different
  // lines and, where some line lists the parents, no two enabled ones tie.
  lemma ParentDeterminedIff(rs: RuleSet)
    requires Valid(rs) && UniqueKeys(rs)
    ensures ParentDetermined(rs) <==> ParentFileTiesOk(rs)
  {
    if ParentFileTiesOk(rs) { ParentFollows(rs); }
    if ParentDetermined(rs) {
      var p := SomeParentOrder(rs);
      var us := Enabled(p.ps);
      LiveIsEnabled(p.ps, rs.parents);
      DeterminedIps(rs, p);
      DeterminedDomains(rs, p);
      DeterminedIff(rs.ipRanges, IpEntries(us), IpPriority);
      DeterminedIff(rs.domains, DomainEntries(us), DomainPriority);
      IpCommute(rs.ipRanges, us);
      DomainCommute(rs.domains, us);
      if UsesParents(rs) { ParentsMustNotTie(rs); }
    }
  }

  lemma ParentsMustNotTie(rs: RuleSet)
    requires Valid(rs) && UniqueKeys(rs) && ParentDetermined(rs) && UsesParents(rs)
    ensures ParentTiesOk(rs.parents)
  {
    DeterminedParents(rs);
    DeterminedIff(rs.parents, EnabledUpstream, ParentPriority);
    ParentsCommute(rs.parents);
  }

  // ---- All three files ----

  ghost predicate FilesDetermined(rs: RuleSet) {
    forall f, g :: IsGeneration(rs, f) && IsGeneration(rs, g) ==> f == g
  }

  // The three files are printed from independent orders.
  lemma AnyThree(rs: RuleSet, p: ParentRows, doms: seq<DomainRule>, acl: seq<ClientACLRule>) returns (f: Files)
    requires ParentOrder(p, rs) && SortOf(doms, rs.domains, DomainPriority) && SortOf(acl, rs.acl, AclPriority)
    ensures IsGeneration(rs, f)
    ensures f == Files(TextOfRows(p, rs.defaultAction), SniYaml.SniText(doms), IpAllow.AllowText(acl))
  {
    var rows := Rows(p.ips, p.doms, doms, p.ps, acl);
    f := FilesOf(rows, rs.defaultAction);
    assert OrderOf(rows, rs);
  }

  lemma HarmlessFollows(rs: RuleSet)
    requires TiesHarmless(rs)
    ensures FilesDetermined(rs)
  {
    ParentFollows(rs);
    SniFollows(rs.domains);
    AllowFollows(rs.acl);
    forall f, g | IsGeneration(rs, f) && IsGeneration(rs, g) ensures f == g { HarmlessFiles(rs, f, g); }
  }

  lemma GenerationParts(rs: RuleSet, f: Files) returns (p: ParentRows, doms: seq<DomainRule>, acl: seq<ClientACLRule>)
    requires IsGeneration(rs, f)
    ensures ParentOrder(p, rs) && SortOf(doms, rs.domains, DomainPriority) && SortOf(acl, rs.acl, AclPriority)
    ensures f == Files(TextOfRows(p, rs.defaultAction), SniYaml.SniText(doms), IpAllow.AllowText(acl))
  {
    var x :| OrderOf(x, rs) && f == FilesOf(x, rs.defaultAction);
    p, doms, acl := ParentRows(x.ips, x.doms, x.ps), x.sniDoms, x.acl;
  }

  lemma HarmlessFiles(rs: RuleSet, f: Files, g: Files)
    requires ParentDetermined(rs) && SniDetermined(rs.domains) && AllowDetermined(rs.acl)
    requires IsGeneration(rs, f) && IsGeneration(rs, g)
    ensures f == g
  {
    var p, d, a := GenerationParts(rs, f);
    var q, e, b := GenerationParts(rs, g);
  }

  lemma DeterminedApart(rs: RuleSet)
    requires FilesDetermined(rs)
    ensures ParentDetermined(rs) && SniDetermined(rs.domains) && AllowDetermined(rs.acl)
  {
    var o := SomeParentOrder(rs);
    var doms := SomeSort(rs.domains, DomainPriority);
    var acl := SomeSort(rs.acl, AclPriority);
    forall p, q | ParentOrder(p, rs) && ParentOrder(q, rs)
      ensures TextOfRows(p, rs.defaultAction) == TextOfRows(q, rs.defaultAction)
    {
      var f := AnyThree(rs, p, doms, acl);
      var g := AnyThree(rs, q, doms, acl);
    }
    forall s, t | SortOf(s, rs.domains, DomainPriority) && SortOf(t, rs.domains, DomainPriority)
      ensures SniYaml.SniText(s) == SniYaml.SniText(t)
    {
      var f := AnyThree(rs, o, s, acl);
      var g := AnyThree(rs, o, t, acl);
    }
    forall s, t | SortOf(s, rs.acl, AclPriority) && SortOf(t, rs.acl, AclPriority)
      ensures IpAllow.AllowText(s) == IpAllow.AllowText(t)
    {
      var f := AnyThree(rs, o, doms, s);
      var g := AnyThree(rs, o, doms, t);
    }
  }

  // The stored rows determine all three files, and with them the hash, if and only if the
  // ties are harmless in each.
  lemma FilesDeterminedIff(rs: RuleSet)
    requires Valid(rs) && UniqueKeys(rs)
    ensures FilesDetermined(rs) <==> TiesHarmless(rs)
  {
    if TiesHarmless(rs) { HarmlessFollows(rs); }
    if FilesDetermined(rs) {
      DeterminedApart(rs);
      ParentDeterminedIff(rs);
      SniDeterminedIff(rs);
      AllowDeterminedIff(rs);
    }
  }

  // Two stores of the same rows, in any order, give the same files where ties are harmless.
  lemma HarmlessOrder(rs: RuleSet, other: RuleSet, f: Files, g: Files)
    requires TiesHarmless(rs) && SameRows(rs, other) && IsGeneration(rs, f) && IsGeneration(other, g)
    ensures f == g && HashOf(f) == HashOf(g)
  {
    HarmlessFollows(rs);
    SameRowsSameGenerations(other, rs, g);
  }
}
