/** parent.config: its generator, a parser for its lines, and their first-match reading. */
module ParentConfig {
  import opened Text
  import opened NetAddr
  import opened CidrRange
  import opened Rules
  import opened Sorting

  // ---- Entries and their text ----

  datatype Upstream = Upstream(address: string, port: int)
  datatype Route = GoDirect | ViaParents(upstreams: seq<Upstream>)
  datatype Dest = DestIp(field: string) | DestDomain(field: string)
  datatype Entry = Entry(dest: Dest, route: Route)

  function PrintUpstream(u: Upstream): string { u.address + ":" + PrintInt(u.port) }

  function PrintUpstreams(us: seq<Upstream>): seq<string> {
    if us == [] then [] else [PrintUpstream(us[0])] + PrintUpstreams(us[1..])
  }

  function ParentList(us: seq<Upstream>): string { Join(PrintUpstreams(us), ';') }

  function RouteText(r: Route): string {
    match r
    case GoDirect => "go_direct=true"
    case ViaParents(us) => ViaText(ParentList(us))
  }

  function ViaText(list: string): string {
    ParentsField(list) + " round_robin=strict go_direct=false"
  }

  function ParentsField(list: string): string { "parent=\"" + list + "\"" }

  function DestText(d: Dest): string {
    match d
    case DestIp(f) => "dest_ip=" + f
    case DestDomain(f) => "dest_domain=" + f
  }

  function EntryLine(e: Entry): string { DestText(e.dest) + " " + RouteText(e.route) }

  function PrintEntries(es: seq<Entry>): seq<string> {
    FlatMap(PrintEntry, es)
  }

  const PrintEntry: Entry -> seq<string> := (e: Entry) => [EntryLine(e)]

  // ---- From rules to entries ----

  // *.example.com becomes .example.com
  function DomainToATS(domain: string): string {
    if HasPrefix(domain, "*.") then domain[1..] else domain
  }

  function Enabled(parents: seq<ParentProxy>): seq<Upstream> {
    FlatMap(EnabledUpstream, parents)
  }

  const EnabledUpstream: ParentProxy -> seq<Upstream> := (p: ParentProxy) => if p.enabled then [Upstream(p.address, p.port)] else []

  // A parent rule prints nothing when no parent is enabled.
  function RuleEntries(dest: Dest, action: string, us: seq<Upstream>): seq<Entry> {
    if action == "direct" then [Entry(dest, GoDirect)]
    else if action == "parent" && us != [] then [Entry(dest, ViaParents(us))]
    else []
  }

  function IpEntries(us: seq<Upstream>): IPRangeRule -> seq<Entry> {
    (r: IPRangeRule) => RuleEntries(DestIp(RangeText(r.cidr)), r.action, us)
  }

  function DomainEntries(us: seq<Upstream>): DomainRule -> seq<Entry> {
    (d: DomainRule) => RuleEntries(DestDomain(DomainToATS(d.domain)), d.action, us)
  }

  function DefaultEntry(action: string, us: seq<Upstream>): Entry {
    Entry(DestDomain("."), if action == "parent" && us != [] then ViaParents(us) else GoDirect)
  }

  // The fixed head of the file: comments and infrastructure rules.
  datatype Line = Comment(text: string) | Rule(entry: Entry)

  function LineText(l: Line): string {
    match l case Comment(t) => t case Rule(e) => EntryLine(e)
  }

  function DirectIp(field: string): Line { Rule(Entry(DestIp(field), GoDirect)) }
  function DirectDomain(field: string): Line { Rule(Entry(DestDomain(field), GoDirect)) }

  function Infra(): seq<Line> {
    [ Comment("# Localhost"), DirectIp("127.0.0.0-127.255.255.255"),
      Comment("# Link-local"), DirectIp("169.254.0.0-169.254.255.255"),
      Comment("# Kubernetes"), DirectDomain(".svc.cluster.local"), DirectDomain(".cluster.local"),
      DirectDomain("localhost"), Comment("") ]
  }

  function LineTexts(ls: seq<Line>): (r: seq<string>)
    ensures |r| == |ls|
  {
    seq(|ls|, i requires 0 <= i < |ls| => LineText(ls[i]))
  }

  function InfraLines(): seq<string> { LineTexts(Infra()) }

  function EntriesOf(ls: seq<Line>): seq<Entry> {
    if ls == [] then []
    else (if ls[0].Rule? then [ls[0].entry] else []) + EntriesOf(ls[1..])
  }

  function UserEntries(ips: seq<IPRangeRule>, doms: seq<DomainRule>, us: seq<Upstream>, default: string): seq<Entry> {
    FlatMap(IpEntries(us), ips) + FlatMap(DomainEntries(us), doms) + [DefaultEntry(default, us)]
  }

  // The file, for rows already in order.
  function ParentText(ips: seq<IPRangeRule>, doms: seq<DomainRule>, parents: seq<ParentProxy>, default: string): string {
    Unlines(InfraLines() + PrintEntries(UserEntries(ips, doms, Enabled(parents), default)))
  }

  // ---- generateParentConfig ----

  lemma GrowText(ls: seq<string>, xs: seq<Entry>, ys: seq<Entry>)
    ensures Unlines(ls + PrintEntries(xs + ys)) == Unlines(ls + PrintEntries(xs)) + Unlines(PrintEntries(ys))
  {
    var p, q := PrintEntries(xs), PrintEntries(ys);
    assert PrintEntries(xs + ys) == p + q by { FlatMapAppend(PrintEntry, xs, ys); }
    assert ls + (p + q) == (ls + p) + q;
    UnlinesAppend(ls + p, q);
  }

  lemma OneEntry(e: Entry)
    ensures Unlines(PrintEntries([e])) == EntryLine(e) + "\n"
  {
    FlatMapOne(PrintEntry, e);
    assert Unlines([EntryLine(e)]) == EntryLine(e) + "\n" + "";
  }

  function DirectLine(dest: string): string { dest + " " + "go_direct=true" + "\n" }
  function ViaLine(dest: string, list: string): string { dest + " " + ViaText(list) + "\n" }

  // The text of one rule, by its action.
  lemma RuleText(dest: Dest, action: string, us: seq<Upstream>)
    ensures Unlines(PrintEntries(RuleEntries(dest, action, us))) ==
      if action == "direct" then DirectLine(DestText(dest))
      else if action == "parent" && us != [] then ViaLine(DestText(dest), ParentList(us))
      else ""
  {
    OneEntry(Entry(dest, GoDirect));
    OneEntry(Entry(dest, ViaParents(us)));
  }

  lemma ParentListEmptyIff(us: seq<Upstream>)
    ensures ParentList(us) == "" <==> us == []
  {
    if us != [] {
      assert PrintUpstreams(us)[0] == PrintUpstream(us[0]) != "";
    }
  }

  method EnabledParents(parents: array<ParentProxy>) returns (us: seq<Upstream>)
    ensures us == Enabled(parents[..])
  {
    us := [];
    for i := 0 to parents.Length
      invariant us == Enabled(parents[..i])
    {
      FlatMapSnoc(EnabledUpstream, parents[..], i);
      assert parents[..][..i] == parents[..i] && parents[..][..i + 1] == parents[..i + 1];
      if parents[i].enabled {
        us := us + [Upstream(parents[i].address, parents[i].port)];
      }
    }
    assert parents[..parents.Length] == parents[..];
  }

  method GenerateParentConfig(ips: array<IPRangeRule>, doms: array<DomainRule>,
                              parents: array<ParentProxy>, default: string)
    returns (text: string)
    modifies ips, doms, parents
    ensures SortOf(ips[..], old(ips[..]), IpPriority)
    ensures SortOf(doms[..], old(doms[..]), DomainPriority)
    ensures SortOf(parents[..], old(parents[..]), ParentPriority)
    ensures text == ParentText(ips[..], doms[..], parents[..], default)
  {
    SortSlice(ips, IpPriority);
    SortSlice(doms, DomainPriority);
    SortSlice(parents, ParentPriority);
    var us := EnabledParents(parents);
    var parentStr := ParentList(us);
    ParentListEmptyIff(us);

    var b := InfraText();
    b := WriteIpRules(b, ips, us, parentStr);
    b := WriteDomainRules(b, doms, us, parentStr, FlatMap(IpEntries(us), ips[..]));
    text := WriteDefault(b, default, us, parentStr,
                         FlatMap(IpEntries(us), ips[..]) + FlatMap(DomainEntries(us), doms[..]));
  }

  method InfraText() returns (b: string)
    ensures b == Unlines(InfraLines() + PrintEntries([]))
  {
    b := "# Localhost" + "\n";
    b := b + DirectLine("dest_ip=" + "127.0.0.0-127.255.255.255");
    b := b + ("# Link-local" + "\n");
    b := b + DirectLine("dest_ip=" + "169.254.0.0-169.254.255.255");
    b := b + ("# Kubernetes" + "\n");
    b := b + DirectLine("dest_domain=" + ".svc.cluster.local");
    b := b + DirectLine("dest_domain=" + ".cluster.local");
    b := b + DirectLine("dest_domain=" + "localhost");
    b := b + ("" + "\n");
    UnlinesNine(InfraTexts());
    InfraTextsAreLines();
    assert InfraLines() + PrintEntries([]) == InfraLines();
  }

  function InfraTexts(): seq<string> {
    [ "# Localhost", "dest_ip=" + "127.0.0.0-127.255.255.255" + " " + "go_direct=true",
      "# Link-local", "dest_ip=" + "169.254.0.0-169.254.255.255" + " " + "go_direct=true",
      "# Kubernetes", "dest_domain=" + ".svc.cluster.local" + " " + "go_direct=true",
      "dest_domain=" + ".cluster.local" + " " + "go_direct=true",
      "dest_domain=" + "localhost" + " " + "go_direct=true", "" ]
  }

  lemma InfraTextsAreLines()
    ensures InfraTexts() == InfraLines()
  {
  }

  lemma UnlinesSnoc(ls: seq<string>, i: nat)
    requires i < |ls|
    ensures Unlines(ls[..i + 1]) == Unlines(ls[..i]) + (ls[i] + "\n")
  {
    assert ls[..i + 1] == ls[..i] + [ls[i]];
    UnlinesAppend(ls[..i], [ls[i]]);
    assert Unlines([ls[i]]) == ls[i] + "\n" + "";
  }

  lemma UnlinesNine(l: seq<string>)
    requires |l| == 9
    ensures Unlines(l) == (l[0] + "\n") + (l[1] + "\n") + (l[2] + "\n") + (l[3] + "\n") + (l[4] + "\n")
                          + (l[5] + "\n") + (l[6] + "\n") + (l[7] + "\n") + (l[8] + "\n")
  {
    assert Unlines(l[..0]) == "" && l[..9] == l;
    UnlinesSnoc(l, 0);
    UnlinesSnoc(l, 1);
    UnlinesSnoc(l, 2);
    UnlinesSnoc(l, 3);
    UnlinesSnoc(l, 4);
    UnlinesSnoc(l, 5);
    UnlinesSnoc(l, 6);
    UnlinesSnoc(l, 7);
    UnlinesSnoc(l, 8);
    assert "" + (l[0] + "\n") == l[0] + "\n";
  }

  // The line of one rule, or nothing.
  method WriteRule(dest: Dest, action: string, us: seq<Upstream>, parentStr: string) returns (line: string)
    requires parentStr == ParentList(us) && (parentStr == "" <==> us == [])
    ensures line == Unlines(PrintEntries(RuleEntries(dest, action, us)))
  {
    RuleText(dest, action, us);
    line := "";
    if action == "direct" {
      line := DirectLine(DestText(dest));
    } else if action == "parent" && parentStr != "" {
      line := ViaLine(DestText(dest), parentStr);
    }
  }

  method WriteIpRules(b0: string, ips: array<IPRangeRule>, us: seq<Upstream>, parentStr: string) returns (b: string)
    requires parentStr == ParentList(us) && (parentStr == "" <==> us == [])
    requires b0 == Unlines(InfraLines() + PrintEntries([]))
    ensures b == Unlines(InfraLines() + PrintEntries(FlatMap(IpEntries(us), ips[..])))
  {
    b := b0;
    for i := 0 to ips.Length
      invariant b == Unlines(InfraLines() + PrintEntries(FlatMap(IpEntries(us), ips[..i])))
    {
      var ipRange := CidrToRange(ips[i].cidr);
      assert ips[..][..i] == ips[..i] && ips[..][..i + 1] == ips[..i + 1];
      FlatMapSnoc(IpEntries(us), ips[..], i);
      GrowText(InfraLines(), FlatMap(IpEntries(us), ips[..i]), IpEntries(us)(ips[i]));
      var line := WriteRule(DestIp(ipRange), ips[i].action, us, parentStr);
      b := b + line;
    }
    assert ips[..ips.Length] == ips[..];
  }

  method WriteDomainRules(b0: string, doms: array<DomainRule>, us: seq<Upstream>, parentStr: string, ghost before: seq<Entry>)
    returns (b: string)
    requires parentStr == ParentList(us) && (parentStr == "" <==> us == [])
    requires b0 == Unlines(InfraLines() + PrintEntries(before))
    ensures b == Unlines(InfraLines() + PrintEntries(before + FlatMap(DomainEntries(us), doms[..])))
  {
    b := b0;
    assert before + FlatMap(DomainEntries(us), doms[..0]) == before;
    for i := 0 to doms.Length
      invariant b == Unlines(InfraLines() + PrintEntries(before + FlatMap(DomainEntries(us), doms[..i])))
    {
      var atsDomain := DomainToATS(doms[i].domain);
      GrowDomains(before, doms[..], i, us);
      assert doms[..][..i] == doms[..i] && doms[..][..i + 1] == doms[..i + 1];
      var line := WriteRule(DestDomain(atsDomain), doms[i].action, us, parentStr);
      b := b + line;
    }
    assert doms[..doms.Length] == doms[..];
  }

  lemma GrowDomains(before: seq<Entry>, doms: seq<DomainRule>, i: nat, us: seq<Upstream>)
    requires i < |doms|
    ensures Unlines(InfraLines() + PrintEntries(before + FlatMap(DomainEntries(us), doms[..i + 1]))) ==
            Unlines(InfraLines() + PrintEntries(before + FlatMap(DomainEntries(us), doms[..i]))) +
            Unlines(PrintEntries(DomainEntries(us)(doms[i])))
  {
    var es, e := FlatMap(DomainEntries(us), doms[..i]), DomainEntries(us)(doms[i]);
    FlatMapSnoc(DomainEntries(us), doms, i);
    GrowText(InfraLines(), before + es, e);
    assert before + (es + e) == before + es + e;
  }

  method WriteDefault(b0: string, default: string, us: seq<Upstream>, parentStr: string, ghost before: seq<Entry>)
    returns (b: string)
    requires parentStr == ParentList(us) && (parentStr == "" <==> us == [])
    requires b0 == Unlines(InfraLines() + PrintEntries(before))
    ensures b == Unlines(InfraLines() + PrintEntries(before + [DefaultEntry(default, us)]))
  {
    GrowText(InfraLines(), before, [DefaultEntry(default, us)]);
    OneEntry(DefaultEntry(default, us));
    if default == "parent" && parentStr != "" {
      b := b0 + ViaLine("dest_domain=" + ".", parentStr);
    } else {
      b := b0 + DirectLine("dest_domain=" + ".");
    }
  }

  // ---- Which parents are used ----

  // The enabled ones, in the order of the rows.
  lemma EnabledAt(ps: seq<ParentProxy>, i: nat)
    requires i < |ps|
    ensures Enabled(ps) == Enabled(ps[..i]) + (if ps[i].enabled then [Upstream(ps[i].address, ps[i].port)] else []) + Enabled(ps[i + 1..])
  {
    assert ps == ps[..i] + ([ps[i]] + ps[i + 1..]);
    FlatMapAppend(EnabledUpstream, ps[..i], [ps[i]] + ps[i + 1..]);
    FlatMapCons(EnabledUpstream, ps[i], ps[i + 1..]);
  }

  // ---- Reading the file back ----

  function ParseUpstream(s: string): Option<Upstream> {
    match LastIndex(s, ':')
    case None => None
    case Some(i) =>
      match ParseNat(s[i + 1..])
      case None => None
      case Some(port) => Some(Upstream(s[..i], port))
  }

  function ParseUpstreams(parts: seq<string>): Option<seq<Upstream>> {
    if parts == [] then Some([])
    else match (ParseUpstream(parts[0]), ParseUpstreams(parts[1..]))
      case (Some(u), Some(us)) => Some([u] + us)
      case _ => None
  }

  function Unquote(s: string): Option<string> {
    if HasPrefix(s, "parent=\"") && |s| > 8 && s[|s| - 1] == '"' then Some(s[8..|s| - 1]) else None
  }

  function ParseParents(s: string): Option<Route> {
    match Unquote(s)
    case None => None
    case Some(list) =>
      match ParseUpstreams(Split(list, ';'))
      case None => None
      case Some(us) => Some(ViaParents(us))
  }

  function ParseRoute(fields: seq<string>): Option<Route> {
    if fields == ["go_direct=true"] then Some(GoDirect)
    else if |fields| == 3 && fields[1..] == ["round_robin=strict", "go_direct=false"] then ParseParents(fields[0])
    else None
  }

  function ParseDest(s: string): Option<Dest> {
    if HasPrefix(s, "dest_ip=") then Some(DestIp(s[8..]))
    else if HasPrefix(s, "dest_domain=") then Some(DestDomain(s[12..]))
    else None
  }

  function ParseEntry(line: string): Option<Entry> {
    var fields := Split(line, ' ');
    match (ParseDest(fields[0]), ParseRoute(fields[1..]))
    case (Some(d), Some(r)) => Some(Entry(d, r))
    case _ => None
  }

  predicate Ignored(line: string) { line == "" || line[0] == '#' }

  function ParseEntries(lines: seq<string>): Option<seq<Entry>> {
    if lines == [] then Some([])
    else if Ignored(lines[0]) then ParseEntries(lines[1..])
    else match (ParseEntry(lines[0]), ParseEntries(lines[1..]))
      case (Some(e), Some(es)) => Some([e] + es)
      case _ => None
  }

  function ParseParentConfig(text: string): Option<seq<Entry>> {
    match Lines(text)
    case None => None
    case Some(ls) => ParseEntries(ls)
  }

  // ---- Round trip ----

  // Text that stands in one field of a line.
  ghost predicate Plain(s: string) {
    Without(s, ' ') && Without(s, '\n')
  }

  ghost predicate GoodUpstream(u: Upstream) {
    Plain(u.address) && Without(u.address, ';') && u.port >= 0
  }

  ghost predicate GoodRoute(r: Route) {
    r.ViaParents? ==> r.upstreams != [] && forall u :: u in r.upstreams ==> GoodUpstream(u)
  }

  ghost predicate GoodEntry(e: Entry) { Plain(e.dest.field) && GoodRoute(e.route) }

  lemma PrintPortChars(n: nat, c: char)
    requires !IsDigit(c)
    ensures Without(PrintInt(n), c)
  {
  }

  lemma {:induction false} LastIndexAt(head: string, c: char, tail: string)
    requires Without(tail, c)
    ensures LastIndex(head + [c] + tail, c) == Some(|head|)
  {
    var s := head + [c] + tail;
    if tail != "" {
      assert s[..|s| - 1] == head + [c] + tail[..|tail| - 1];
      LastIndexAt(head, c, tail[..|tail| - 1]);
    }
  }

  lemma ParsePrintUpstream(u: Upstream)
    requires GoodUpstream(u)
    ensures ParseUpstream(PrintUpstream(u)) == Some(u)
    ensures Plain(PrintUpstream(u)) && Without(PrintUpstream(u), ';')
  {
    PrintPortChars(u.port, ':');
    PrintPortChars(u.port, ';');
    PrintPortChars(u.port, ' ');
    PrintPortChars(u.port, '\n');
    LastIndexAt(u.address, ':', PrintInt(u.port));
    ParsePrintNat(u.port);
    var s := PrintUpstream(u);
    assert s[..|u.address|] == u.address && s[|u.address| + 1..] == PrintInt(u.port);
  }

  lemma ParseOneMore(part: string, parts: seq<string>, u: Upstream, us: seq<Upstream>)
    requires ParseUpstream(part) == Some(u) && ParseUpstreams(parts) == Some(us)
    ensures ParseUpstreams([part] + parts) == Some([u] + us)
  {
    assert ([part] + parts)[1..] == parts;
  }

  lemma ParsePrintOneMore(u: Upstream, parts: seq<string>, us: seq<Upstream>)
    requires GoodUpstream(u) && ParseUpstreams(parts) == Some(us)
    ensures ParseUpstreams([PrintUpstream(u)] + parts) == Some([u] + us)
  {
    ParsePrintUpstream(u);
    ParseOneMore(PrintUpstream(u), parts, u, us);
  }

  lemma {:induction false} ParsePrintUpstreams(us: seq<Upstream>)
    requires forall u :: u in us ==> GoodUpstream(u)
    ensures ParseUpstreams(PrintUpstreams(us)) == Some(us)
  {
    if us != [] {
      var u, rest := us[0], us[1..];
      assert us == [u] + rest;
      assert u in us && forall v :: v in rest ==> v in us;
      ParsePrintUpstreams(rest);
      ParsePrintOneMore(u, PrintUpstreams(rest), rest);
    }
  }

  lemma {:induction false} UpstreamsPlain(us: seq<Upstream>)
    requires forall u :: u in us ==> GoodUpstream(u)
    ensures forall p :: p in PrintUpstreams(us) ==> Plain(p) && Without(p, ';')
  {
    if us != [] {
      ParsePrintUpstream(us[0]);
      UpstreamsPlain(us[1..]);
    }
  }

  lemma {:induction false} JoinPlain(parts: seq<string>)
    requires forall p :: p in parts ==> Plain(p)
    ensures Plain(Join(parts, ';'))
  {
    if |parts| > 1 {
      JoinPlain(parts[1..]);
      assert parts[0] in parts;
    } else if |parts| == 1 {
      assert parts[0] in parts;
    }
  }

  lemma UnquoteField(list: string)
    ensures Unquote(ParentsField(list)) == Some(list)
  {
    var s := ParentsField(list);
    PrefixSplit("parent=\"", list + "\"");
    assert s == "parent=\"" + (list + "\"");
    assert s[8..] == list + "\"" && s[8..|s| - 1] == list;
  }

  lemma PlainField(list: string)
    requires Plain(list)
    ensures Plain(ParentsField(list))
  {
  }

  lemma ParseParentsField(us: seq<Upstream>)
    requires us != [] && forall u :: u in us ==> GoodUpstream(u)
    ensures ParseParents(ParentsField(ParentList(us))) == Some(ViaParents(us))
    ensures Plain(ParentsField(ParentList(us)))
  {
    ParsePrintUpstreams(us);
    UpstreamsPlain(us);
    JoinPlain(PrintUpstreams(us));
    SplitJoin(PrintUpstreams(us), ';');
    UnquoteField(ParentList(us));
    PlainField(ParentList(us));
  }

  lemma ParsePrintRoute(r: Route) returns (fields: seq<string>)
    requires GoodRoute(r)
    ensures RouteText(r) == Join(fields, ' ') && fields != []
    ensures forall f :: f in fields ==> Plain(f)
    ensures ParseRoute(fields) == Some(r)
  {
    match r
    case GoDirect =>
      fields := ["go_direct=true"];
    case ViaParents(us) =>
      fields := ViaFields(us);
  }

  lemma TailFields(p: string)
    ensures Plain("round_robin=strict") && Plain("go_direct=false")
    ensures ParseRoute([p, "round_robin=strict", "go_direct=false"]) == ParseParents(p)
  {
    assert [p, "round_robin=strict", "go_direct=false"][1..] == ["round_robin=strict", "go_direct=false"];
  }

  lemma ViaFields(us: seq<Upstream>) returns (fields: seq<string>)
    requires us != [] && forall u :: u in us ==> GoodUpstream(u)
    ensures RouteText(ViaParents(us)) == Join(fields, ' ') && fields != []
    ensures forall f :: f in fields ==> Plain(f)
    ensures ParseRoute(fields) == Some(ViaParents(us))
  {
    var parents := ParentsField(ParentList(us));
    ParseParentsField(us);
    TailFields(parents);
    fields := [parents, "round_robin=strict", "go_direct=false"];
    JoinThree(fields);
    TailText(parents);
  }

  lemma TailText(p: string)
    ensures p + " " + "round_robin=strict" + " " + "go_direct=false" == p + " round_robin=strict go_direct=false"
  {
    assert " " + "round_robin=strict" + " " + "go_direct=false" == " round_robin=strict go_direct=false";
    assert p + " " + "round_robin=strict" + " " + "go_direct=false" ==
           p + (" " + "round_robin=strict" + " " + "go_direct=false");
  }

  lemma JoinThree(f: seq<string>)
    requires |f| == 3
    ensures Join(f, ' ') == f[0] + " " + f[1] + " " + f[2]
  {
    assert f[1..] == [f[1], f[2]] && f[2..] == [f[2]];
    assert Join(f[1..], ' ') == f[1] + " " + f[2];
    assert Join(f, ' ') == f[0] + " " + (f[1] + " " + f[2]);
  }

  // One line reads back as the entry it was printed from.
  lemma ParsePrintEntry(e: Entry)
    requires GoodEntry(e)
    ensures ParseEntry(EntryLine(e)) == Some(e) && !Ignored(EntryLine(e))
    ensures Without(EntryLine(e), '\n')
  {
    var fields := ParsePrintRoute(e.route);
    var dest := DestText(e.dest);
    var all := [dest] + fields;
    ParsePrintDest(e.dest);
    assert all[1..] == fields;
    assert Join(all, ' ') == EntryLine(e);
    SplitJoin(all, ' ');
    JoinKeepsPlain(all);
  }

  lemma ParsePrintDest(d: Dest)
    requires Plain(d.field)
    ensures ParseDest(DestText(d)) == Some(d) && Plain(DestText(d))
    ensures DestText(d) != "" && DestText(d)[0] == 'd'
  {
    match d
    case DestIp(f) =>
      PrefixSplit("dest_ip=", f);
    case DestDomain(f) =>
      PrefixSplit("dest_domain=", f);
      assert DestText(d)[5] != "dest_ip="[5];
  }

  lemma {:induction false} JoinKeepsPlain(parts: seq<string>)
    requires forall p :: p in parts ==> Plain(p)
    ensures Without(Join(parts, ' '), '\n')
  {
    if |parts| > 1 {
      JoinKeepsPlain(parts[1..]);
      assert parts[0] in parts;
    } else if |parts| == 1 {
      assert parts[0] in parts;
    }
  }

  lemma {:induction false} ParsePrintEntries(es: seq<Entry>)
    requires forall e :: e in es ==> GoodEntry(e)
    ensures ParseEntries(PrintEntries(es)) == Some(es)
    ensures OneLiners(PrintEntries(es))
  {
    if es != [] {
      ParsePrintEntries(es[1..]);
      assert es[0] in es;
      ParsePrintEntry(es[0]);
      var ls := PrintEntries(es);
      assert ls == [EntryLine(es[0])] + PrintEntries(es[1..]);
      assert ls[1..] == PrintEntries(es[1..]);
      assert es == [es[0]] + es[1..];
    }
  }

  // ---- Everything the generator prints is well formed ----

  lemma CidrPlain(cidr: string)
    requires Accepted(cidr)
    ensures Plain(cidr)
  {
    assert !CidrChar(' ') && !CidrChar('\n');
    if ParseIP(cidr).Some? { ParseIPChars(cidr); } else { ParseCIDRChars(cidr); }
  }

  lemma RangeForm(cidr: string) returns (own: bool, lo: Bytes, hi: Bytes)
    ensures |lo| == 4 && |hi| == 4 && RangeText(cidr) == if own then cidr else PrintIPv4(lo) + "-" + PrintIPv4(hi)
  {
    own, lo, hi := true, Zeros(4), Zeros(4);
    if ParseCIDR(cidr).Some? && To4(ParseCIDR(cidr).value.ip).Some? {
      own, lo := false, To4(ParseCIDR(cidr).value.ip).value;
      hi := RangeEnd(lo, ParseCIDR(cidr).value.mask);
    }
  }

  lemma RangePlain(text: string, lo: Bytes, hi: Bytes)
    requires |lo| == 4 && |hi| == 4 && text == PrintIPv4(lo) + "-" + PrintIPv4(hi)
    ensures Plain(text)
  {
    DottedPlain(lo);
    DottedPlain(hi);
  }

  lemma RangeTextPlain(cidr: string)
    requires Accepted(cidr)
    ensures Plain(RangeText(cidr))
  {
    CidrPlain(cidr);
    var own, lo, hi := RangeForm(cidr);
    if !own { RangePlain(RangeText(cidr), lo, hi); }
  }

  lemma DottedPlain(b: Bytes)
    requires |b| == 4
    ensures Plain(PrintIPv4(b))
  {
    ParsePrintIPv4(b);
    ParseIPv4Chars(PrintIPv4(b));
    assert !AddrChar(' ') && !AddrChar('\n');
  }

  lemma DomainPlain(domain: string)
    requires IsDomain(domain)
    ensures Plain(domain) && Plain(DomainToATS(domain))
  {
    DomainChars(domain);
    assert !DomainChar(' ') && !DomainChar('\n');
  }

  lemma {:induction false} EnabledGood(parents: seq<ParentProxy>)
    requires forall p :: p in parents ==> ValidParent(p)
    ensures forall u :: u in Enabled(parents) ==> GoodUpstream(u)
  {
    if parents != [] {
      EnabledGood(parents[1..]);
      var p := parents[0];
      assert p in parents;
      ParseIPChars(p.address);
      assert !AddrChar(' ') && !AddrChar('\n') && !AddrChar(';');
    }
  }

  lemma RuleEntriesGood(dest: Dest, action: string, us: seq<Upstream>, e: Entry)
    requires Plain(dest.field) && forall u :: u in us ==> GoodUpstream(u)
    requires e in RuleEntries(dest, action, us)
    ensures GoodEntry(e)
  {
  }

  lemma IpRowsGood(ips: seq<IPRangeRule>, us: seq<Upstream>, e: Entry)
    requires forall r :: r in ips ==> ValidIPRange(r)
    requires forall u :: u in us ==> GoodUpstream(u)
    requires e in FlatMap(IpEntries(us), ips)
    ensures GoodEntry(e)
  {
    FlatMapFrom(IpEntries(us), ips, e);
    var r :| r in ips && e in IpEntries(us)(r);
    assert ValidIPRange(r);
    RangeTextPlain(r.cidr);
    RuleEntriesGood(DestIp(RangeText(r.cidr)), r.action, us, e);
  }

  lemma DomainRowsGood(doms: seq<DomainRule>, us: seq<Upstream>, e: Entry)
    requires forall d :: d in doms ==> ValidDomainRule(d)
    requires forall u :: u in us ==> GoodUpstream(u)
    requires e in FlatMap(DomainEntries(us), doms)
    ensures GoodEntry(e)
  {
    FlatMapFrom(DomainEntries(us), doms, e);
    var d :| d in doms && e in DomainEntries(us)(d);
    assert ValidDomainRule(d);
    DomainPlain(d.domain);
    RuleEntriesGood(DestDomain(DomainToATS(d.domain)), d.action, us, e);
  }

  lemma RowsGood(ips: seq<IPRangeRule>, doms: seq<DomainRule>, us: seq<Upstream>, default: string)
    requires forall r :: r in ips ==> ValidIPRange(r)
    requires forall d :: d in doms ==> ValidDomainRule(d)
    requires forall u :: u in us ==> GoodUpstream(u)
    ensures forall e :: e in UserEntries(ips, doms, us, default) ==> GoodEntry(e)
  {
    forall e | e in UserEntries(ips, doms, us, default) ensures GoodEntry(e) {
      if e in FlatMap(IpEntries(us), ips) {
        IpRowsGood(ips, us, e);
      } else if e in FlatMap(DomainEntries(us), doms) {
        DomainRowsGood(doms, us, e);
      }
    }
  }

  lemma Skip(l: string, ls: seq<string>)
    requires Ignored(l)
    ensures ParseEntries([l] + ls) == ParseEntries(ls)
  {
    assert ([l] + ls)[1..] == ls;
  }

  lemma Take(l: string, e: Entry, ls: seq<string>)
    requires GoodEntry(e) && l == EntryLine(e) && ParseEntries(ls).Some?
    ensures ParseEntries([l] + ls) == Some([e] + ParseEntries(ls).value)
  {
    ParsePrintEntry(e);
    assert ([l] + ls)[1..] == ls;
  }

  ghost predicate GoodLine(l: Line) {
    match l case Comment(t) => Ignored(t) && Without(t, '\n') case Rule(e) => GoodEntry(e)
  }

  lemma LineTextsStep(ls: seq<Line>)
    requires ls != []
    ensures LineTexts(ls) == [LineText(ls[0])] + LineTexts(ls[1..])
  {
    var a, b := LineTexts(ls), [LineText(ls[0])] + LineTexts(ls[1..]);
    assert |a| == |b|;
    forall i | 0 <= i < |a| ensures a[i] == b[i] {
      if i > 0 { assert ls[1..][i - 1] == ls[i]; }
    }
  }

  lemma {:induction false} ParseFixed(ls: seq<Line>, rest: seq<string>)
    requires (forall l :: l in ls ==> GoodLine(l)) && ParseEntries(rest).Some?
    ensures ParseEntries(LineTexts(ls) + rest) == Some(EntriesOf(ls) + ParseEntries(rest).value)
  {
    var es := ParseEntries(rest).value;
    if ls == [] {
      assert LineTexts(ls) + rest == rest && EntriesOf(ls) + es == es;
    } else {
      assert ls[0] in ls && ls == [ls[0]] + ls[1..];
      ParseFixed(ls[1..], rest);
      FixedStep(ls[0], ls[1..], LineTexts(ls[1..]) + rest, es);
      LineTextsStep(ls);
      ConcatAssoc([LineText(ls[0])], LineTexts(ls[1..]), rest);
    }
  }

  lemma FixedStep(l: Line, ls: seq<Line>, tail: seq<string>, es: seq<Entry>)
    requires GoodLine(l) && ParseEntries(tail) == Some(EntriesOf(ls) + es)
    ensures ParseEntries([LineText(l)] + tail) == Some(EntriesOf([l] + ls) + es)
  {
    var all := [l] + ls;
    assert all[0] == l && all[1..] == ls;
    if l.Rule? {
      Take(LineText(l), l.entry, tail);
      ConcatAssoc([l.entry], EntriesOf(ls), es);
    } else {
      Skip(LineText(l), tail);
      assert [] + EntriesOf(ls) == EntriesOf(ls);
    }
  }

  lemma FixedOneLiners(ls: seq<Line>)
    requires forall l :: l in ls ==> GoodLine(l)
    ensures OneLiners(LineTexts(ls))
  {
    forall t | t in LineTexts(ls) ensures Without(t, '\n') {
      var i :| 0 <= i < |ls| && LineTexts(ls)[i] == t;
      assert GoodLine(ls[i]);
      if ls[i].Rule? { ParsePrintEntry(ls[i].entry); }
    }
  }

  lemma PlainIp1() ensures Plain("127.0.0.0-127.255.255.255") {}
  lemma PlainIp2() ensures Plain("169.254.0.0-169.254.255.255") {}
  lemma PlainDomain1() ensures Plain(".svc.cluster.local") {}
  lemma PlainDomain2() ensures Plain(".cluster.local") && Plain("localhost") {}

  lemma InfraGood()
    ensures forall l :: l in Infra() ==> GoodLine(l)
  {
    PlainIp1();
    PlainIp2();
    PlainDomain1();
    PlainDomain2();
  }

  // The generated file parses to exactly the entries of the rules, for every valid rule set.
  lemma ParseParentText(ips: seq<IPRangeRule>, doms: seq<DomainRule>, parents: seq<ParentProxy>, default: string)
    requires forall r :: r in ips ==> ValidIPRange(r)
    requires forall d :: d in doms ==> ValidDomainRule(d)
    requires forall p :: p in parents ==> ValidParent(p)
    ensures ParseParentConfig(ParentText(ips, doms, parents, default)) ==
            Some(EntriesOf(Infra()) + UserEntries(ips, doms, Enabled(parents), default))
    ensures OneLiners(InfraLines() + PrintEntries(UserEntries(ips, doms, Enabled(parents), default)))
  {
    var es := UserEntries(ips, doms, Enabled(parents), default);
    EnabledGood(parents);
    RowsGood(ips, doms, Enabled(parents), default);
    ParsePrintEntries(es);
    InfraGood();
    ParseFixed(Infra(), PrintEntries(es));
    FixedOneLiners(Infra());
    LinesUnlines(InfraLines() + PrintEntries(es));
  }
}
