/**
What parent.config means: the first matching line decides. The generated file makes
the same decision as the rules themselves, whatever the destination.
*/
module Routing {
  import opened Text
  import opened NetAddr
  import opened CidrRange
  import opened Rules
  import opened Sorting
  import opened Matching
  import opened ParentConfig

  datatype Destination = Destination(addr: Option<Bytes>, host: string)

  // ---- Reading the lines ----

  // "." is every host, a leading dot is a suffix, anything else is one host.
  predicate HostMatches(field: string, host: string) {
    field == "." || (HasPrefix(field, ".") && HasSuffix(host, field)) || host == field
  }

  predicate MatchesDest(dest: Dest, d: Destination) {
    match dest
    case DestIp(f) => d.addr.Some? && Covers(f, d.addr.value)
    case DestDomain(f) => HostMatches(f, d.host)
  }

  function Applies(d: Destination): Entry -> bool { (e: Entry) => MatchesDest(e.dest, d) }

  function FirstMatch(es: seq<Entry>, d: Destination): Option<Route> {
    match First(es, Applies(d))
    case None => None
    case Some(e) => Some(e.route)
  }

  // ---- The decision of the rules, without any file ----

  // *.example.com names the hosts with at least one more label before example.com.
  predicate RuleMatchesHost(domain: string, host: string) {
    if HasPrefix(domain, "*.") then Subdomain(domain[2..], host) else host == domain
  }

  predicate Subdomain(base: string, host: string) {
    var b, h := Split(base, '.'), Split(host, '.');
    |h| > |b| && h[|h| - |b|..] == b
  }

  function IpHit(d: Destination): IPRangeRule -> bool {
    (r: IPRangeRule) => d.addr.Some? && Denotes(r.cidr, d.addr.value)
  }

  function DomainHit(d: Destination): DomainRule -> bool {
    (r: DomainRule) => RuleMatchesHost(r.domain, d.host)
  }

  predicate InfraAddr(a: Bytes) {
    var n := Norm(a);
    |n| == 4 && (n[0] == 127 || (n[0] == 169 && n[1] == 254))
  }

  // Loopback and link-local addresses, cluster names and localhost never use a parent.
  predicate InfraDest(d: Destination) {
    || (d.addr.Some? && InfraAddr(d.addr.value))
    || Subdomain("svc.cluster.local", d.host) || Subdomain("cluster.local", d.host)
    || d.host == "localhost"
  }

  // With no upstream enabled everything goes direct.
  function RouteFor(action: string, us: seq<Upstream>): Route {
    if action == "parent" && us != [] then ViaParents(us) else GoDirect
  }

  // Infrastructure first, then address rules, then domain rules, then the default.
  ghost predicate Decides(rs: RuleSet, us: seq<Upstream>, d: Destination, ipHit: IPRangeRule -> bool, route: Route) {
    if InfraDest(d) then route == GoDirect
    else if AnyHit(rs.ipRanges, ipHit) then
      exists w :: Best(rs.ipRanges, w, ipHit, IpPriority) && route == RouteFor(w.action, us)
    else if AnyHit(rs.domains, DomainHit(d)) then
      exists w :: Best(rs.domains, w, DomainHit(d), DomainPriority) && route == RouteFor(w.action, us)
    else route == RouteFor(rs.defaultAction, us)
  }

  // The decision the rules ask for.
  ghost predicate ReferenceRoute(rs: RuleSet, us: seq<Upstream>, d: Destination, route: Route) {
    Decides(rs, us, d, IpHit(d), route)
  }

  // The addresses that the printed form of a rule selects: of a truncated block only the first.
  predicate PrintedDenotes(cidr: string, a: Bytes) {
    if TruncatesBlock(cidr) then Norm(a) == Norm(ParseCIDR(cidr).value.ip) else Denotes(cidr, a)
  }

  function PrintedHit(d: Destination): IPRangeRule -> bool {
    (r: IPRangeRule) => d.addr.Some? && PrintedDenotes(r.cidr, d.addr.value)
  }

  // The reference decides: with distinct priorities there is one answer.
  lemma ReferenceIsUnique(rs: RuleSet, us: seq<Upstream>, d: Destination, r1: Route, r2: Route)
    requires DistinctKeys(rs.ipRanges, IpPriority) && DistinctKeys(rs.domains, DomainPriority)
    requires ReferenceRoute(rs, us, d, r1) && ReferenceRoute(rs, us, d, r2)
    ensures r1 == r2
  {
    if !InfraDest(d) && AnyHit(rs.ipRanges, IpHit(d)) {
      BestIsUnique(rs.ipRanges, IpHit(d), IpPriority);
    } else if !InfraDest(d) && AnyHit(rs.domains, DomainHit(d)) {
      BestIsUnique(rs.domains, DomainHit(d), DomainPriority);
    }
  }

  // ---- Labels and dots ----

  lemma {:induction false} JoinConcat(a: seq<string>, b: seq<string>, sep: char)
    requires a != [] && b != []
    ensures Join(a + b, sep) == Join(a, sep) + [sep] + Join(b, sep)
  {
    if |a| == 1 {
      assert (a + b)[1..] == b;
    } else {
      JoinConcat(a[1..], b, sep);
      assert (a + b)[1..] == a[1..] + b;
      assert a[0] + [sep] + (Join(a[1..], sep) + [sep] + Join(b, sep)) ==
             (a[0] + [sep] + Join(a[1..], sep)) + [sep] + Join(b, sep);
    }
  }

  lemma SuffixGivesLabels(base: string, host: string)
    requires HasSuffix(host, "." + base)
    ensures Subdomain(base, host)
  {
    var p := host[..|host| - |base| - 1];
    assert host == p + ['.'] + base;
    SplitConcat(p, '.', base);
    var b, a := Split(base, '.'), Split(p, '.');
    assert (a + b)[|a + b| - |b|..] == b;
  }

  lemma LabelsGiveSuffix(base: string, host: string)
    requires Subdomain(base, host)
    ensures HasSuffix(host, "." + base)
  {
    var b, h := Split(base, '.'), Split(host, '.');
    var a := h[..|h| - |b|];
    assert h == a + b;
    JoinConcat(a, b, '.');
    JoinSplit(host, '.');
    JoinSplit(base, '.');
    assert host == Join(a, '.') + ("." + base);
  }

  // A text suffix on a dot is a suffix of labels.
  lemma SuffixIsLabels(base: string, host: string)
    ensures HasSuffix(host, "." + base) <==> Subdomain(base, host)
  {
    if HasSuffix(host, "." + base) { SuffixGivesLabels(base, host); }
    if Subdomain(base, host) { LabelsGiveSuffix(base, host); }
  }

  // The printed domain field selects the hosts that the rule names.
  lemma DomainFieldMeaning(domain: string, host: string)
    requires IsDomain(domain)
    ensures HostMatches(DomainToATS(domain), host) <==> RuleMatchesHost(domain, host)
  {
    DomainChars(domain);
    if HasPrefix(domain, "*.") {
      var base := domain[2..];
      assert domain[1..] == "." + base;
      SuffixIsLabels(base, host);
      SuffixItself(host, "." + base);
    } else {
      assert domain[0] != '.';
    }
  }

  lemma SuffixItself(host: string, field: string)
    ensures host == field ==> HasSuffix(host, field)
  {
  }

  // ---- Infrastructure ----

  function Ones(n: nat): (b: Bytes)
    ensures |b| == n
  {
    seq(n, _ => 255)
  }

  lemma {:induction false} ZeroOnes(n: nat)
    ensures Value(Zeros(n)) == 0 && Value(Ones(n)) == Pow256(n) - 1
  {
    if n > 0 {
      ZeroOnes(n - 1);
      assert Zeros(n)[1..] == Zeros(n - 1) && Ones(n)[1..] == Ones(n - 1);
    }
  }

  // The block of the addresses that start with those bytes, lowest and highest.
  lemma {:induction false} WholeBytes(head: Bytes, n: nat)
    ensures Low(head + Zeros(n), 8 * |head|) == Value(head + Zeros(n))
    ensures High(head + Zeros(n), 8 * |head|) == Value(head + Ones(n))
  {
    var b, e := head + Zeros(n), head + Ones(n);
    if head == [] {
      assert b == Zeros(n) && e == Ones(n);
      FullRange(b);
      ZeroOnes(n);
    } else {
      assert b[1..] == head[1..] + Zeros(n) && e[1..] == head[1..] + Ones(n);
      WholeBytes(head[1..], n);
      BitInterval(head[0], head[0], 8 * |head|);
    }
  }

  lemma {:induction false} AgreeOnHead(a: Bytes, head: Bytes, n: nat)
    requires |a| == |head| + n
    ensures Agree(a, head + Zeros(n), 8 * |head|) <==> a[..|head|] == head
  {
    var b := head + Zeros(n);
    if head == [] {
      AllAgree(a, b);
    } else {
      assert b[1..] == head[1..] + Zeros(n);
      AgreeOnHead(a[1..], head[1..], n);
      BitInterval(a[0], head[0], 8 * |head|);
      BitInterval(a[0], a[0], 8 * |head|);
      assert a[..|head|] == [a[0]] + a[1..][..|head| - 1];
      assert head == [head[0]] + head[1..];
      if a[..|head|] == head { assert a[1..][..|head| - 1] == head[1..]; }
    }
  }

  lemma HeadRange(a: Bytes, head: Bytes, n: nat)
    requires |a| == |head| + n
    ensures Value(head + Zeros(n)) <= Value(a) <= Value(head + Ones(n)) <==> a[..|head|] == head
  {
    AgreeIsInterval(a, head + Zeros(n), 8 * |head|);
    WholeBytes(head, n);
    AgreeOnHead(a, head, n);
  }

  lemma CoversHead(field: string, head: Bytes, n: nat, a: Bytes)
    requires |head| + n == 4
    requires field == PrintIPv4(head + Zeros(n)) + "-" + PrintIPv4(head + Ones(n))
    ensures Covers(field, a) <==> |Norm(a)| == 4 && Norm(a)[..|head|] == head
  {
    ParsePrintRange(head + Zeros(n), head + Ones(n));
    if |Norm(a)| == 4 { HeadRange(Norm(a), head, n); }
  }

  lemma Octets()
    ensures PrintNat(0) == "0" && PrintNat(127) == "127" && PrintNat(255) == "255"
    ensures PrintNat(169) == "169" && PrintNat(254) == "254"
  {
    assert PrintNat(12) == "12" && PrintNat(25) == "25" && PrintNat(16) == "16";
  }

  lemma Dotted(b: Bytes, w: string, x: string, y: string, z: string)
    requires |b| == 4 && PrintNat(b[0] as nat) == w && PrintNat(b[1] as nat) == x
    requires PrintNat(b[2] as nat) == y && PrintNat(b[3] as nat) == z
    ensures PrintIPv4(b) == w + "." + x + "." + y + "." + z
  {
  }

  lemma Loopback(lo: Bytes, hi: Bytes)
    requires lo == [127] + Zeros(3) && hi == [127] + Ones(3)
    ensures PrintIPv4(lo) == "127.0.0.0" && PrintIPv4(hi) == "127.255.255.255"
  {
    Octets();
    Dotted(lo, "127", "0", "0", "0");
    Dotted(hi, "127", "255", "255", "255");
  }

  lemma LoopbackText()
    ensures PrintIPv4([127] + Zeros(3)) + "-" + PrintIPv4([127] + Ones(3)) == "127.0.0.0-127.255.255.255"
  {
    Loopback([127] + Zeros(3), [127] + Ones(3));
  }

  lemma LinkLocal(lo: Bytes, hi: Bytes)
    requires lo == [169, 254] + Zeros(2) && hi == [169, 254] + Ones(2)
    ensures PrintIPv4(lo) == "169.254.0.0" && PrintIPv4(hi) == "169.254.255.255"
  {
    Octets();
    Dotted(lo, "169", "254", "0", "0");
    Dotted(hi, "169", "254", "255", "255");
  }

  lemma LinkLocalText()
    ensures PrintIPv4([169, 254] + Zeros(2)) + "-" + PrintIPv4([169, 254] + Ones(2)) == "169.254.0.0-169.254.255.255"
  {
    LinkLocal([169, 254] + Zeros(2), [169, 254] + Ones(2));
  }

  lemma CoversOne(field: string, x: bv8, a: Bytes)
    requires field == PrintIPv4([x] + Zeros(3)) + "-" + PrintIPv4([x] + Ones(3))
    ensures Covers(field, a) <==> |Norm(a)| == 4 && Norm(a)[0] == x
  {
    CoversHead(field, [x], 3, a);
    if |Norm(a)| == 4 { assert Norm(a)[..1] == [Norm(a)[0]]; }
  }

  lemma CoversTwo(field: string, x: bv8, y: bv8, a: Bytes)
    requires field == PrintIPv4([x, y] + Zeros(2)) + "-" + PrintIPv4([x, y] + Ones(2))
    ensures Covers(field, a) <==> |Norm(a)| == 4 && Norm(a)[0] == x && Norm(a)[1] == y
  {
    CoversHead(field, [x, y], 2, a);
    if |Norm(a)| == 4 { assert Norm(a)[..2] == [Norm(a)[0], Norm(a)[1]]; }
  }

  lemma LoopbackMeaning(field: string, a: Bytes)
    requires field == "127.0.0.0-127.255.255.255"
    ensures Covers(field, a) <==> |Norm(a)| == 4 && Norm(a)[0] == 127
  {
    LoopbackText();
    CoversOne(field, 127, a);
  }

  lemma LinkLocalMeaning(field: string, a: Bytes)
    requires field == "169.254.0.0-169.254.255.255"
    ensures Covers(field, a) <==> |Norm(a)| == 4 && Norm(a)[0] == 169 && Norm(a)[1] == 254
  {
    LinkLocalText();
    CoversTwo(field, 169, 254, a);
  }

  lemma InfraIpMeaning(a: Bytes)
    ensures (Covers("127.0.0.0-127.255.255.255", a) || Covers("169.254.0.0-169.254.255.255", a)) <==> InfraAddr(a)
  {
    LoopbackMeaning("127.0.0.0-127.255.255.255", a);
    LinkLocalMeaning("169.254.0.0-169.254.255.255", a);
  }

  lemma SuffixField(field: string, base: string, host: string)
    requires field == "." + base && base != ""
    ensures HostMatches(field, host) <==> Subdomain(base, host)
  {
    SuffixIsLabels(base, host);
    SuffixItself(host, field);
  }

  lemma ClusterService(host: string)
    ensures HostMatches(".svc.cluster.local", host) <==> Subdomain("svc.cluster.local", host)
  {
    SuffixField(".svc.cluster.local", "svc.cluster.local", host);
  }

  lemma ClusterHost(host: string)
    ensures HostMatches(".cluster.local", host) <==> Subdomain("cluster.local", host)
  {
    SuffixField(".cluster.local", "cluster.local", host);
  }

  lemma ExactField(field: string, host: string)
    requires |field| > 1 && field[0] != '.'
    ensures HostMatches(field, host) <==> host == field
  {
  }

  lemma LocalHost(host: string)
    ensures HostMatches("localhost", host) <==> host == "localhost"
  {
    ExactField("localhost", host);
  }

  predicate LineHits(l: Line, d: Destination) { l.Rule? && MatchesDest(l.entry.dest, d) }

  // Fixed lines that all go direct: one of them matches.
  predicate FixedHit(ls: seq<Line>, d: Destination) {
    ls != [] && (LineHits(ls[0], d) || FixedHit(ls[1..], d))
  }

  lemma FirstCons(e: Entry, es: seq<Entry>, d: Destination)
    ensures FirstMatch([e] + es, d) == if MatchesDest(e.dest, d) then Some(e.route) else FirstMatch(es, d)
  {
    assert ([e] + es)[1..] == es;
  }

  lemma {:induction false} FixedFirst(ls: seq<Line>, rest: seq<Entry>, d: Destination)
    requires forall l :: l in ls && l.Rule? ==> l.entry.route == GoDirect
    ensures FirstMatch(EntriesOf(ls) + rest, d) == if FixedHit(ls, d) then Some(GoDirect) else FirstMatch(rest, d)
  {
    if ls == [] {
      assert EntriesOf(ls) + rest == rest;
    } else {
      var l, tail := ls[0], EntriesOf(ls[1..]) + rest;
      assert ls == [l] + ls[1..];
      FixedFirst(ls[1..], rest, d);
      if l.Rule? {
        assert l in ls;
        assert EntriesOf(ls) + rest == [l.entry] + tail;
        FirstCons(l.entry, tail, d);
      } else {
        assert EntriesOf(ls) + rest == tail;
      }
    }
  }

  lemma InfraMeaning(d: Destination)
    ensures FixedHit(Infra(), d) <==> InfraDest(d)
  {
    ClusterService(d.host);
    ClusterHost(d.host);
    LocalHost(d.host);
    if d.addr.Some? { InfraIpMeaning(d.addr.value); }
    InfraMembers(d);
  }

  lemma InfraDirect()
    ensures forall l :: l in Infra() && l.Rule? ==> l.entry.route == GoDirect
  {
  }

  lemma InfraFirst(rest: seq<Entry>, d: Destination)
    ensures FirstMatch(EntriesOf(Infra()) + rest, d) == if InfraDest(d) then Some(GoDirect) else FirstMatch(rest, d)
  {
    InfraDirect();
    FixedFirst(Infra(), rest, d);
    InfraMeaning(d);
  }

  lemma FixedHitFrom(ls: seq<Line>, i: nat, d: Destination)
    requires i < |ls|
    ensures FixedHit(ls[i..], d) <==> LineHits(ls[i], d) || FixedHit(ls[i + 1..], d)
  {
    assert ls[i..][1..] == ls[i + 1..];
  }

  lemma FixedHitNine(ls: seq<Line>, d: Destination)
    requires |ls| == 9 && ls[0].Comment? && ls[2].Comment? && ls[4].Comment? && ls[8].Comment?
    ensures FixedHit(ls, d) <==>
      LineHits(ls[1], d) || LineHits(ls[3], d) || LineHits(ls[5], d) || LineHits(ls[6], d) || LineHits(ls[7], d)
  {
    assert ls[0..] == ls && ls[9..] == [];
    FixedHitFrom(ls, 0, d);
    FixedHitFrom(ls, 1, d);
    FixedHitFrom(ls, 2, d);
    FixedHitFrom(ls, 3, d);
    FixedHitFrom(ls, 4, d);
    FixedHitFrom(ls, 5, d);
    FixedHitFrom(ls, 6, d);
    FixedHitFrom(ls, 7, d);
    FixedHitFrom(ls, 8, d);
  }

  lemma MembersOf(ls: seq<Line>, d: Destination, a: string, b: string, x: string, y: string, z: string)
    requires |ls| == 9
    requires ls == [ls[0], DirectIp(a), ls[2], DirectIp(b), ls[4], DirectDomain(x), DirectDomain(y), DirectDomain(z), ls[8]]
    requires ls[0].Comment? && ls[2].Comment? && ls[4].Comment? && ls[8].Comment?
    ensures FixedHit(ls, d) <==>
      || (d.addr.Some? && (Covers(a, d.addr.value) || Covers(b, d.addr.value)))
      || HostMatches(x, d.host) || HostMatches(y, d.host) || HostMatches(z, d.host)
  {
    FixedHitNine(ls, d);
  }

  lemma InfraMembers(d: Destination)
    ensures FixedHit(Infra(), d) <==>
      || (d.addr.Some? && (Covers("127.0.0.0-127.255.255.255", d.addr.value) || Covers("169.254.0.0-169.254.255.255", d.addr.value)))
      || HostMatches(".svc.cluster.local", d.host) || HostMatches(".cluster.local", d.host) || HostMatches("localhost", d.host)
  {
    MembersOf(Infra(), d, "127.0.0.0-127.255.255.255", "169.254.0.0-169.254.255.255",
              ".svc.cluster.local", ".cluster.local", "localhost");
  }

  // ---- The file decides as the rules do ----

  lemma OneAddress(a: Bytes, first: Bytes)
    requires |a| == |first| == 4
    ensures Value(a) == Value(first) <==> a == first
  {
    HeadRange(a, first, 0);
    assert first + Zeros(0) == first && first + Ones(0) == first;
    assert a[..4] == a;
  }

  lemma TruncatedMeaning(cidr: string, a: Bytes)
    requires TruncatesBlock(cidr)
    ensures Covers(RangeText(cidr), a) <==> Norm(a) == Norm(ParseCIDR(cidr).value.ip)
  {
    var b, k := MappedParts(cidr);
    var first := ParseCIDR(cidr).value.ip[12..];
    MappedRangeText(cidr, b, k);
    OneRange(RangeText(cidr), first, a);
  }

  lemma OneRange(field: string, first: Bytes, a: Bytes)
    requires |first| == 4 && ParseRange(field) == Some((first, first))
    ensures Covers(field, a) <==> Norm(a) == first
  {
    if |Norm(a)| == 4 { OneAddress(Norm(a), first); }
  }

  lemma PrintedMeaning(cidr: string, a: Bytes)
    requires Accepted(cidr)
    ensures Covers(RangeText(cidr), a) <==> PrintedDenotes(cidr, a)
  {
    if TruncatesBlock(cidr) {
      TruncatedMeaning(cidr, a);
    } else {
      RangeExact(cidr, a);
    }
  }

  lemma IpPrints(r: IPRangeRule, us: seq<Upstream>, d: Destination)
    requires ValidIPRange(r) && us != []
    ensures Prints(IpEntries(us), r, Applies(d), PrintedHit(d))
    ensures IpEntries(us)(r)[0].route == RouteFor(r.action, us)
  {
    if d.addr.Some? { PrintedMeaning(r.cidr, d.addr.value); }
  }

  lemma DomainPrints(r: DomainRule, us: seq<Upstream>, d: Destination)
    requires ValidDomainRule(r) && us != []
    ensures Prints(DomainEntries(us), r, Applies(d), DomainHit(d))
    ensures DomainEntries(us)(r)[0].route == RouteFor(r.action, us)
  {
    DomainFieldMeaning(r.domain, d.host);
  }

  lemma IpRowsDecide(rs: RuleSet, ips: seq<IPRangeRule>, us: seq<Upstream>, d: Destination, rest: seq<Entry>)
    requires Valid(rs) && us != [] && SortOf(ips, rs.ipRanges, IpPriority)
    ensures if AnyHit(rs.ipRanges, PrintedHit(d))
            then exists w :: Best(rs.ipRanges, w, PrintedHit(d), IpPriority) &&
                             FirstMatch(FlatMap(IpEntries(us), ips) + rest, d) == Some(RouteFor(w.action, us))
            else FirstMatch(FlatMap(IpEntries(us), ips) + rest, d) == FirstMatch(rest, d)
  {
    SameElements(ips, rs.ipRanges);
    forall r | r in ips ensures Prints(IpEntries(us), r, Applies(d), PrintedHit(d)) { IpPrints(r, us, d); }
    FirstIsBest(ips, IpEntries(us), Applies(d), PrintedHit(d), IpPriority, rest);
    BestPermutes(rs.ipRanges, ips, PrintedHit(d), IpPriority);
    if AnyHit(ips, PrintedHit(d)) {
      var w :| Best(ips, w, PrintedHit(d), IpPriority) && |IpEntries(us)(w)| == 1 &&
               First(FlatMap(IpEntries(us), ips) + rest, Applies(d)) == Some(IpEntries(us)(w)[0]);
      IpPrints(w, us, d);
      assert Best(rs.ipRanges, w, PrintedHit(d), IpPriority);
    }
  }

  lemma DomainRowsDecide(rs: RuleSet, doms: seq<DomainRule>, us: seq<Upstream>, d: Destination, rest: seq<Entry>)
    requires Valid(rs) && us != [] && SortOf(doms, rs.domains, DomainPriority)
    ensures if AnyHit(rs.domains, DomainHit(d))
            then exists w :: Best(rs.domains, w, DomainHit(d), DomainPriority) &&
                             FirstMatch(FlatMap(DomainEntries(us), doms) + rest, d) == Some(RouteFor(w.action, us))
            else FirstMatch(FlatMap(DomainEntries(us), doms) + rest, d) == FirstMatch(rest, d)
  {
    SameElements(doms, rs.domains);
    forall r | r in doms ensures Prints(DomainEntries(us), r, Applies(d), DomainHit(d)) { DomainPrints(r, us, d); }
    FirstIsBest(doms, DomainEntries(us), Applies(d), DomainHit(d), DomainPriority, rest);
    BestPermutes(rs.domains, doms, DomainHit(d), DomainPriority);
    if AnyHit(doms, DomainHit(d)) {
      var w :| Best(doms, w, DomainHit(d), DomainPriority) && |DomainEntries(us)(w)| == 1 &&
               First(FlatMap(DomainEntries(us), doms) + rest, Applies(d)) == Some(DomainEntries(us)(w)[0]);
      DomainPrints(w, us, d);
      assert Best(rs.domains, w, DomainHit(d), DomainPriority);
    }
  }

  lemma DefaultDecides(action: string, us: seq<Upstream>, d: Destination)
    ensures FirstMatch([DefaultEntry(action, us)], d) == Some(RouteFor(action, us))
  {
  }

  // With parents to use, the printed rules decide as the rows do.
  lemma ViaDecides(rs: RuleSet, ips: seq<IPRangeRule>, doms: seq<DomainRule>, us: seq<Upstream>, d: Destination) returns (route: Route)
    requires Valid(rs) && us != [] && !InfraDest(d)
    requires SortOf(ips, rs.ipRanges, IpPriority) && SortOf(doms, rs.domains, DomainPriority)
    ensures FirstMatch(UserEntries(ips, doms, us, rs.defaultAction), d) == Some(route)
    ensures Decides(rs, us, d, PrintedHit(d), route)
  {
    var last := [DefaultEntry(rs.defaultAction, us)];
    var rest := FlatMap(DomainEntries(us), doms) + last;
    IpRowsDecide(rs, ips, us, d, rest);
    DomainRowsDecide(rs, doms, us, d, last);
    DefaultDecides(rs.defaultAction, us, d);
    ConcatAssoc(FlatMap(IpEntries(us), ips), FlatMap(DomainEntries(us), doms), last);
    route := FirstMatch(UserEntries(ips, doms, us, rs.defaultAction), d).value;
  }

  // Lines that all go direct, and a last one for every host.
  lemma {:induction false} AllDirect(es: seq<Entry>, d: Destination)
    requires forall e :: e in es ==> e.route == GoDirect
    ensures FirstMatch(es + [Entry(DestDomain("."), GoDirect)], d) == Some(GoDirect)
  {
    var all := es + [Entry(DestDomain("."), GoDirect)];
    if es != [] {
      assert es[0] in es && all[1..] == es[1..] + [Entry(DestDomain("."), GoDirect)];
      AllDirect(es[1..], d);
    }
  }

  // Without a parent the printed parent rules disappear, and nothing changes: all goes direct.
  lemma NoParentDecides(rs: RuleSet, ips: seq<IPRangeRule>, doms: seq<DomainRule>, d: Destination, hit: IPRangeRule -> bool)
    ensures FirstMatch(UserEntries(ips, doms, [], rs.defaultAction), d) == Some(GoDirect)
    ensures Decides(rs, [], d, hit, GoDirect)
  {
    var es := FlatMap(IpEntries([]), ips) + FlatMap(DomainEntries([]), doms);
    forall e | e in es ensures e.route == GoDirect {
      FlatMapFrom(IpEntries([]), ips, e);
      FlatMapFrom(DomainEntries([]), doms, e);
    }
    AllDirect(es, d);
    if AnyHit(rs.ipRanges, hit) { BestExists(rs.ipRanges, hit, IpPriority); }
    if AnyHit(rs.domains, DomainHit(d)) { BestExists(rs.domains, DomainHit(d), DomainPriority); }
  }

  // What the generated file decides, for every valid rule set, every order of tied rows
  // and every destination.
  lemma FileDecides(rs: RuleSet, ips: seq<IPRangeRule>, doms: seq<DomainRule>, ps: seq<ParentProxy>, d: Destination)
    returns (es: seq<Entry>, route: Route)
    requires Valid(rs)
    requires SortOf(ips, rs.ipRanges, IpPriority) && SortOf(doms, rs.domains, DomainPriority)
    requires SortOf(ps, rs.parents, ParentPriority)
    ensures ParseParentConfig(ParentText(ips, doms, ps, rs.defaultAction)) == Some(es)
    ensures FirstMatch(es, d) == Some(route)
    ensures Decides(rs, Enabled(ps), d, PrintedHit(d), route)
  {
    SameElements(ips, rs.ipRanges);
    SameElements(doms, rs.domains);
    SameElements(ps, rs.parents);
    ParseParentText(ips, doms, ps, rs.defaultAction);
    var us := Enabled(ps);
    var user := UserEntries(ips, doms, us, rs.defaultAction);
    es := EntriesOf(Infra()) + user;
    InfraFirst(user, d);
    if InfraDest(d) {
      route := GoDirect;
    } else if us == [] {
      route := GoDirect;
      NoParentDecides(rs, ips, doms, d, PrintedHit(d));
    } else {
      route := ViaDecides(rs, ips, doms, us, d);
    }
  }

  // Printing preserves the routing decision, provided no address rule is a truncated block
  // with lost addresses that matter.
  lemma RoutingPreserved(rs: RuleSet, ips: seq<IPRangeRule>, doms: seq<DomainRule>, ps: seq<ParentProxy>, d: Destination)
    returns (es: seq<Entry>, route: Route)
    requires Valid(rs) && forall r :: r in rs.ipRanges ==> HarmlessRange(r.cidr)
    requires SortOf(ips, rs.ipRanges, IpPriority) && SortOf(doms, rs.domains, DomainPriority)
    requires SortOf(ps, rs.parents, ParentPriority)
    ensures ParseParentConfig(ParentText(ips, doms, ps, rs.defaultAction)) == Some(es)
    ensures FirstMatch(es, d) == Some(route)
    ensures ReferenceRoute(rs, Enabled(ps), d, route)
  {
    es, route := FileDecides(rs, ips, doms, ps, d);
    HarmlessDecides(rs, Enabled(ps), d, route);
  }

  // The decision depends on which rows hit, and on nothing else about the test.
  lemma SameHits(rs: RuleSet, us: seq<Upstream>, d: Destination, h: IPRangeRule -> bool, k: IPRangeRule -> bool, route: Route)
    requires forall r :: r in rs.ipRanges ==> (h(r) <==> k(r))
    ensures Decides(rs, us, d, h, route) <==> Decides(rs, us, d, k, route)
  {
    assert AnyHit(rs.ipRanges, h) <==> AnyHit(rs.ipRanges, k);
    assert forall w :: Best(rs.ipRanges, w, h, IpPriority) <==> Best(rs.ipRanges, w, k, IpPriority);
  }

  ghost predicate IsLone(rs: RuleSet, r: IPRangeRule, p: ParentProxy) {
    rs.defaultAction == "parent" && rs.domains == [] && rs.ipRanges == [r] && rs.parents == [p] && rs.acl == []
  }

  lemma LoneValid(rs: RuleSet, r: IPRangeRule, p: ParentProxy)
    requires IsLone(rs, r, p) && ValidIPRange(r) && ValidParent(p) && p.enabled
    ensures Valid(rs) && Enabled(rs.parents) == [Upstream(p.address, p.port)]
  {
    FlatMapOne(EnabledUpstream, p);
  }

  lemma Actions(us: seq<Upstream>)
    requires us != []
    ensures RouteFor("direct", us) == GoDirect && RouteFor("parent", us) == ViaParents(us)
  {
  }

  lemma LoneHits(r: IPRangeRule, hit: IPRangeRule -> bool, w: IPRangeRule)
    ensures AnyHit([r], hit) <==> hit(r)
    ensures Best([r], w, hit, IpPriority) ==> w == r
  {
    assert r in [r];
  }

  lemma NoHits(hit: DomainRule -> bool)
    ensures !AnyHit([], hit)
  {
  }

  lemma LoneDecides(rs: RuleSet, us: seq<Upstream>, r: IPRangeRule, p: ParentProxy, d: Destination,
                    ipHit: IPRangeRule -> bool, route: Route)
    requires IsLone(rs, r, p) && r.action == "direct" && us != [] && !InfraDest(d)
    requires Decides(rs, us, d, ipHit, route)
    ensures route == if ipHit(r) then GoDirect else ViaParents(us)
  {
    Actions(us);
    LoneHits(r, ipHit, r);
    if ipHit(r) {
      var w :| Best(rs.ipRanges, w, ipHit, IpPriority) && route == RouteFor(w.action, us);
      LoneHits(r, ipHit, w);
    } else {
      NoHits(DomainHit(d));
    }
  }

  // A truncated block does misroute: alone with action direct before a parent default, every
  // destination that it names is sent to the parent, except its first address.
  lemma TruncationMisroutes(rs: RuleSet, r: IPRangeRule, p: ParentProxy, d: Destination)
    returns (es: seq<Entry>, route: Route)
    requires ValidIPRange(r) && TruncatesBlock(r.cidr) && r.action == "direct" && ValidParent(p) && p.enabled
    requires IsLone(rs, r, p)
    requires d.addr.Some? && Denotes(r.cidr, d.addr.value) && !InfraDest(d)
    requires Norm(d.addr.value) != Norm(ParseCIDR(r.cidr).value.ip)
    ensures ParseParentConfig(ParentText([r], [], [p], rs.defaultAction)) == Some(es) && FirstMatch(es, d) == Some(route)
    ensures route == ViaParents([Upstream(p.address, p.port)]) && !ReferenceRoute(rs, Enabled(rs.parents), d, route)
  {
    var us := Enabled(rs.parents);
    LoneValid(rs, r, p);
    es, route := FileDecides(rs, rs.ipRanges, rs.domains, rs.parents, d);
    LoneDecides(rs, us, r, p, d, PrintedHit(d), route);
    if ReferenceRoute(rs, us, d, route) { LoneDecides(rs, us, r, p, d, IpHit(d), route); }
  }

  // ---- When a truncated block does no harm ----

  // Every address of the block but its first goes direct anyway.
  ghost predicate InfraBlock(cidr: string)
    requires ParseCIDR(cidr).Some?
  {
    forall a :: Denotes(cidr, a) && Norm(a) != Norm(ParseCIDR(cidr).value.ip) ==> InfraAddr(a)
  }

  // That is: the block is a part of 127.0.0.0/8 or of 169.254.0.0/16.
  predicate InfraPrefix(cidr: string)
    requires TruncatesBlock(cidr)
  {
    var net, n := ParseCIDR(cidr).value, PrefixLength(cidr);
    (n >= 104 && net.ip[12] == 127) || (n >= 112 && net.ip[12] == 169 && net.ip[13] == 254)
  }

  predicate HarmlessRange(cidr: string) { TruncatesBlock(cidr) ==> InfraPrefix(cidr) }

  predicate InfraBytes(f: Bytes)
    requires |f| == 4
  {
    f[0] == 127 || (f[0] == 169 && f[1] == 254)
  }

  ghost predicate AllInfra(f: Bytes, k: nat)
    requires |f| == 4
  {
    forall a :: |a| == 4 && a != f && SameUnder(a, f, CIDRMask(k, 4)) ==> InfraBytes(a)
  }

  // What a prefix of k bits keeps of the byte at i.
  function Kept(x: bv8, k: nat, i: nat): bv8 { x & PrefixByte(if k < 8 * i then 0 else k - 8 * i) }

  // first is the first address of a block whose prefix has k bits.
  predicate FirstOf(first: Bytes, k: nat) { |first| == 4 && forall i :: 0 <= i < 4 ==> Kept(first[i], k, i) == first[i] }

  lemma {:induction false} SameUnderAt(a: Bytes, f: Bytes, m: Bytes)
    requires |a| == |f| == |m|
    ensures SameUnder(a, f, m) <==> forall i :: 0 <= i < |a| ==> a[i] & m[i] == f[i] & m[i]
  {
    if a != [] {
      SameUnderAt(a[1..], f[1..], m[1..]);
      assert forall i :: 0 < i < |a| ==> a[i] == a[1..][i - 1] && f[i] == f[1..][i - 1] && m[i] == m[1..][i - 1];
    }
  }

  lemma InBlock(a: Bytes, f: Bytes, k: nat)
    requires |a| == 4 && FirstOf(f, k)
    ensures SameUnder(a, f, CIDRMask(k, 4)) <==> forall i :: 0 <= i < 4 ==> Kept(a[i], k, i) == f[i]
  {
    var m := CIDRMask(k, 4);
    forall i | 0 <= i < 4 ensures a[i] & m[i] == Kept(a[i], k, i) && f[i] & m[i] == f[i] {
      MaskAt(k, 4, i);
      assert Kept(f[i], k, i) == f[i];
    }
    SameUnderAt(a, f, m);
  }

  lemma OddBit(x: bv8, n: nat)
    requires x & PrefixByte(n) == x && n < 8
    ensures x != 127 && x != 169 && (x | 1) & PrefixByte(n) == x && (x | 1) != x && (x | 1) != 254
  {
  }

  lemma FullByte(x: bv8, n: nat)
    requires n >= 8
    ensures x & PrefixByte(n) == x
  {
  }

  // A block of two or more addresses, all infrastructure but perhaps the first.
  lemma AllInfraIff(f: Bytes, k: nat)
    requires FirstOf(f, k) && k < 32
    ensures AllInfra(f, k) <==> (k >= 8 && f[0] == 127) || (k >= 16 && f[0] == 169 && f[1] == 254)
  {
    if (k >= 8 && f[0] == 127) || (k >= 16 && f[0] == 169 && f[1] == 254) {
      forall a | |a| == 4 && a != f && SameUnder(a, f, CIDRMask(k, 4)) ensures InfraBytes(a) {
        InBlock(a, f, k);
        assert Kept(a[0], k, 0) == f[0] && Kept(a[1], k, 1) == f[1];
        FullByte(a[0], k);
        if k >= 16 { FullByte(a[1], k - 8); }
      }
    } else {
      var a := NotInfra(f, k);
    }
  }

  // The second address of the block, or one that differs from it in the second byte.
  lemma NotInfra(f: Bytes, k: nat) returns (a: Bytes)
    requires FirstOf(f, k) && k < 32 && !((k >= 8 && f[0] == 127) || (k >= 16 && f[0] == 169 && f[1] == 254))
    ensures |a| == 4 && a != f && SameUnder(a, f, CIDRMask(k, 4)) && !InfraBytes(a)
  {
    if 8 <= k < 16 && f[0] == 169 {
      a := NextSecondByte(f, k);
    } else {
      a := NextAddress(f, k);
      assert Kept(f[0], k, 0) == f[0];
      if k < 8 { OddBit(f[0], k); }
    }
  }

  lemma NextAddress(f: Bytes, k: nat) returns (a: Bytes)
    requires FirstOf(f, k) && k < 32
    ensures |a| == 4 && a != f && SameUnder(a, f, CIDRMask(k, 4)) && a[0] == f[0] && a[1] == f[1]
  {
    assert Kept(f[3], k, 3) == f[3];
    OddBit(f[3], if k < 24 then 0 else k - 24);
    a := f[3 := f[3] | 1];
    forall i | 0 <= i < 4 ensures Kept(a[i], k, i) == f[i] { assert Kept(f[i], k, i) == f[i]; }
    InBlock(a, f, k);
  }

  lemma NextSecondByte(f: Bytes, k: nat) returns (a: Bytes)
    requires FirstOf(f, k) && 8 <= k < 16
    ensures |a| == 4 && a != f && SameUnder(a, f, CIDRMask(k, 4)) && a[0] == f[0] && a[1] != 254
  {
    assert Kept(f[1], k, 1) == f[1];
    OddBit(f[1], k - 8);
    a := f[1 := f[1] | 1];
    forall i | 0 <= i < 4 ensures Kept(a[i], k, i) == f[i] { assert Kept(f[i], k, i) == f[i]; }
    InBlock(a, f, k);
  }

  lemma MappedFirst(cidr: string) returns (k: nat)
    requires TruncatesBlock(cidr)
    ensures var net := ParseCIDR(cidr).value;
            |net.ip| == 16 && PrefixLength(cidr) == k + 96 && k < 32 && FirstOf(net.ip[12..], k) && net.mask[12..] == CIDRMask(k, 4)
  {
    var b;
    b, k := MappedParts(cidr);
    forall i | 0 <= i < 4 ensures Kept(Masked(b, CIDRMask(k, 4))[i], k, i) == Masked(b, CIDRMask(k, 4))[i] {
      MaskAt(k, 4, i);
      MaskedAt(b, CIDRMask(k, 4), i);
    }
  }

  lemma BlockDenotes(cidr: string, k: nat, a: Bytes)
    requires IsMapped(cidr) && ParseCIDR(cidr).value.mask[12..] == CIDRMask(k, 4)
    ensures Denotes(cidr, a) <==> |Norm(a)| == 4 && SameUnder(Norm(a), ParseCIDR(cidr).value.ip[12..], CIDRMask(k, 4))
  {
    MappedDenotes(cidr, a);
  }

  lemma InfraBlockIs(cidr: string, k: nat, f: Bytes)
    requires IsMapped(cidr) && ParseCIDR(cidr).value.mask[12..] == CIDRMask(k, 4) && f == ParseCIDR(cidr).value.ip[12..]
    ensures InfraBlock(cidr) <==> AllInfra(f, k)
  {
    assert Norm(ParseCIDR(cidr).value.ip) == f;
    if AllInfra(f, k) {
      forall a | Denotes(cidr, a) && Norm(a) != f ensures InfraAddr(a) { BlockDenotes(cidr, k, a); }
    }
    if InfraBlock(cidr) {
      forall a | |a| == 4 && a != f && SameUnder(a, f, CIDRMask(k, 4)) ensures InfraBytes(a) {
        assert Norm(a) == a;
        BlockDenotes(cidr, k, a);
      }
    }
  }

  lemma InfraBlockIff(cidr: string)
    requires TruncatesBlock(cidr)
    ensures InfraBlock(cidr) <==> InfraPrefix(cidr)
  {
    var k := MappedFirst(cidr);
    InfraBlockIs(cidr, k, ParseCIDR(cidr).value.ip[12..]);
    AllInfraIff(ParseCIDR(cidr).value.ip[12..], k);
  }

  // The harmless ones within 127.0.0.0/8: there are such texts.
  lemma LoopbackIsHarmless(dotted: string, digits: string, n: nat)
    requires ParseIPv4(dotted).Some? && ParseIPv4(dotted).value[0] == 127 && ParseNat(digits) == Some(n) && 104 <= n < 128
    ensures var cidr := "::" + ("ffff:" + dotted) + "/" + digits; TruncatesBlock(cidr) && HarmlessRange(cidr)
  {
    var b := Zeros(10) + ([0xFF, 0xFF] + ParseIPv4(dotted).value);
    TruncatedFamily(dotted, digits, n);
    MappedAddress(dotted);
    WithPrefix("::" + ("ffff:" + dotted), digits, n);
    LoopbackStays(b, n);
  }

  lemma LoopbackStays(b: Bytes, n: nat)
    requires |b| == 16 && b[12] == 127 && n >= 104
    ensures Masked(b, CIDRMask(n, 16))[12] == 127
  {
    MaskAt(n, 16, 12);
    MaskedAt(b, CIDRMask(n, 16), 12);
    FullByte(b[12], n - 96);
  }

  // The file of those rules sends that destination where the rules do, in every order of ties.
  ghost predicate RoutesRight(rs: RuleSet, d: Destination) {
    forall ips, doms, ps, es, route ::
      SortOf(ips, rs.ipRanges, IpPriority) && SortOf(doms, rs.domains, DomainPriority) && SortOf(ps, rs.parents, ParentPriority) &&
      ParseParentConfig(ParentText(ips, doms, ps, rs.defaultAction)) == Some(es) && FirstMatch(es, d) == Some(route) ==>
        ReferenceRoute(rs, Enabled(ps), d, route)
  }

  // Rule sets in which that CIDR may stand, beside others that are harmless.
  ghost predicate Around(rs: RuleSet, cidr: string) {
    Valid(rs) && forall r :: r in rs.ipRanges ==> r.cidr == cidr || HarmlessRange(r.cidr)
  }

  lemma TruncatedCoversLess(cidr: string, a: Bytes)
    requires TruncatesBlock(cidr) && PrintedDenotes(cidr, a)
    ensures Denotes(cidr, a)
  {
    TruncatedMeaning(cidr, a);
    var b, k := MappedParts(cidr);
    FirstDenoted(cidr, a, b, k);
  }

  lemma FirstDenoted(cidr: string, a: Bytes, b: Bytes, k: nat)
    requires MappedBlock(cidr, b, k) && Covers(RangeText(cidr), a)
    ensures Denotes(cidr, a)
  {
    MappedRange(cidr, a, b, k);
    IntervalSize(b, k);
    PowPositive(32 - k);
  }

  lemma HarmlessHit(r: IPRangeRule, d: Destination)
    requires HarmlessRange(r.cidr) && !InfraDest(d)
    ensures IpHit(d)(r) <==> PrintedHit(d)(r)
  {
    if d.addr.Some? && TruncatesBlock(r.cidr) {
      InfraBlockIff(r.cidr);
      if PrintedDenotes(r.cidr, d.addr.value) { TruncatedCoversLess(r.cidr, d.addr.value); }
    }
  }

  lemma HarmlessRoutesRight(rs: RuleSet, d: Destination)
    requires Valid(rs) && forall r :: r in rs.ipRanges ==> HarmlessRange(r.cidr)
    ensures RoutesRight(rs, d)
  {
    forall ips, doms, ps, es, route |
      SortOf(ips, rs.ipRanges, IpPriority) && SortOf(doms, rs.domains, DomainPriority) && SortOf(ps, rs.parents, ParentPriority) &&
      ParseParentConfig(ParentText(ips, doms, ps, rs.defaultAction)) == Some(es) && FirstMatch(es, d) == Some(route)
      ensures ReferenceRoute(rs, Enabled(ps), d, route)
    {
      var x, y := FileDecides(rs, ips, doms, ps, d);
      HarmlessDecides(rs, Enabled(ps), d, route);
    }
  }

  lemma HarmlessDecides(rs: RuleSet, us: seq<Upstream>, d: Destination, route: Route)
    requires (forall r :: r in rs.ipRanges ==> HarmlessRange(r.cidr)) && Decides(rs, us, d, PrintedHit(d), route)
    ensures ReferenceRoute(rs, us, d, route)
  {
    if !InfraDest(d) {
      forall r | r in rs.ipRanges ensures IpHit(d)(r) <==> PrintedHit(d)(r) { HarmlessHit(r, d); }
      SameHits(rs, us, d, IpHit(d), PrintedHit(d), route);
    }
  }

  function SomeParent(): ParentProxy { ParentProxy(PrintIPv4([10, 0, 0, 1]), 3128, 1, true) }

  lemma SomeParentValid()
    ensures ValidParent(SomeParent())
  {
    DottedIP(SomeParent().address, [10, 0, 0, 1]);
  }

  lemma Nameless(d: Destination)
    requires d.host == "" && d.addr.Some? && !InfraAddr(d.addr.value)
    ensures !InfraDest(d)
  {
    assert Split("", '.') == [""];
  }

  lemma HarmfulRoutesWrong(cidr: string) returns (rs: RuleSet, d: Destination)
    requires ValidCidr(cidr) && !HarmlessRange(cidr)
    ensures Around(rs, cidr) && !RoutesRight(rs, d)
  {
    InfraBlockIff(cidr);
    var a :| Denotes(cidr, a) && Norm(a) != Norm(ParseCIDR(cidr).value.ip) && !InfraAddr(a);
    var r := IPRangeRule(cidr, "direct", 1);
    d := Destination(Some(a), "");
    Nameless(d);
    SomeParentValid();
    rs := RuleSet("parent", [], [r], [SomeParent()], []);
    LoneRoutesWrong(rs, r, SomeParent(), d);
  }

  // One order of the rows that goes wrong is enough.
  lemma OneWrong(rs: RuleSet, d: Destination, ips: seq<IPRangeRule>, doms: seq<DomainRule>, ps: seq<ParentProxy>, es: seq<Entry>, route: Route)
    requires SortOf(ips, rs.ipRanges, IpPriority) && SortOf(doms, rs.domains, DomainPriority) && SortOf(ps, rs.parents, ParentPriority)
    requires ParseParentConfig(ParentText(ips, doms, ps, rs.defaultAction)) == Some(es) && FirstMatch(es, d) == Some(route)
    requires !ReferenceRoute(rs, Enabled(ps), d, route)
    ensures !RoutesRight(rs, d)
  {
  }

  lemma LoneAround(rs: RuleSet, r: IPRangeRule, p: ParentProxy)
    requires IsLone(rs, r, p) && ValidIPRange(r) && ValidParent(p) && p.enabled
    ensures Around(rs, r.cidr)
  {
    LoneValid(rs, r, p);
  }

  lemma LoneRoutesWrong(rs: RuleSet, r: IPRangeRule, p: ParentProxy, d: Destination)
    requires ValidIPRange(r) && TruncatesBlock(r.cidr) && r.action == "direct" && ValidParent(p) && p.enabled
    requires IsLone(rs, r, p) && d.addr.Some? && Denotes(r.cidr, d.addr.value) && !InfraDest(d)
    requires Norm(d.addr.value) != Norm(ParseCIDR(r.cidr).value.ip)
    ensures Around(rs, r.cidr) && !RoutesRight(rs, d)
  {
    LoneAround(rs, r, p);
    var es, route := TruncationMisroutes(rs, r, p, d);
    OneWrong(rs, d, rs.ipRanges, rs.domains, rs.parents, es, route);
  }

  // Exactly which address rules keep the routing decision: a CIDR is safe in every rule set
  // whose other rules are, if and only if it is no truncated block or one within the
  // infrastructure ranges, where the lost addresses go direct anyway.
  lemma TruncationHarmlessIff(cidr: string)
    requires ValidCidr(cidr)
    ensures (forall rs, d :: Around(rs, cidr) ==> RoutesRight(rs, d)) <==> HarmlessRange(cidr)
  {
    if HarmlessRange(cidr) {
      forall rs, d | Around(rs, cidr) ensures RoutesRight(rs, d) { HarmlessRoutesRight(rs, d); }
    } else {
      var rs, d := HarmfulRoutesWrong(cidr);
    }
  }
}
