/** sni.yaml: its generator, a parser for it, and which hosts it tunnels. */
module SniYaml {
  import opened Text
  import opened Rules
  import opened Sorting
  import opened ParentConfig
  import opened Routing

  const Header := "sni:"
  const FqdnStart := "  - fqdn: '"
  const TunnelLine := "    tunnel_route: direct"

  // .example.com becomes *.example.com
  function DomainToSNI(domain: string): string {
    if HasPrefix(domain, ".") then "*" + domain else domain
  }

  function FqdnLine(fqdn: string): string { FqdnStart + fqdn + "'" }

  const SniLines: DomainRule -> seq<string> :=
    (d: DomainRule) => if d.action == "direct" then [FqdnLine(DomainToSNI(d.domain)), TunnelLine] else []

  function SniText(doms: seq<DomainRule>): string {
    Unlines([Header] + FlatMap(SniLines, doms))
  }

  lemma GrowSni(doms: seq<DomainRule>, i: nat)
    requires i < |doms|
    ensures SniText(doms[..i + 1]) == SniText(doms[..i]) + Unlines(SniLines(doms[i]))
  {
    var ls := FlatMap(SniLines, doms[..i]);
    FlatMapSnoc(SniLines, doms, i);
    UnlinesAppend([Header] + ls, SniLines(doms[i]));
    assert [Header] + (ls + SniLines(doms[i])) == [Header] + ls + SniLines(doms[i]);
  }

  lemma TwoLines(a: string, b: string)
    ensures Unlines([a, b]) == a + "\n" + b + "\n"
  {
    assert [a, b][1..] == [b];
    assert Unlines([b]) == b + "\n" + "" == b + "\n";
    assert Unlines([a, b]) == a + "\n" + (b + "\n");
  }

  // generateSNIYaml: sorts its argument again, in place.
  method GenerateSNIYaml(doms: array<DomainRule>) returns (text: string)
    modifies doms
    ensures SortOf(doms[..], old(doms[..]), DomainPriority)
    ensures text == SniText(doms[..])
  {
    SortSlice(doms, DomainPriority);
    text := WriteTunnels(doms);
  }

  method WriteTunnels(doms: array<DomainRule>) returns (text: string)
    ensures text == SniText(doms[..])
  {
    text := Header + "\n";
    assert Unlines([Header] + []) == Header + "\n" + "";
    for i := 0 to doms.Length
      invariant text == SniText(doms[..i])
    {
      GrowSni(doms[..], i);
      assert doms[..][..i] == doms[..i] && doms[..][..i + 1] == doms[..i + 1];
      if doms[i].action == "direct" {
        var fqdn := DomainToSNI(doms[i].domain);
        TwoLines(FqdnLine(fqdn), TunnelLine);
        text := text + (FqdnLine(fqdn) + "\n" + TunnelLine + "\n");
      }
    }
    assert doms[..doms.Length] == doms[..];
  }

  // ---- Reading the file back: by the words of the format, not those of the generator ----

  function ParseFqdn(line: string): Option<string> {
    if HasPrefix(line, "  - fqdn: '") && |line| > 11 && line[|line| - 1] == '\''
    then Some(line[11..|line| - 1]) else None
  }

  function ParseTunnels(ls: seq<string>): Option<seq<string>> {
    if ls == [] then Some([])
    else if |ls| == 1 || ls[1] != "    tunnel_route: direct" then None
    else match (ParseFqdn(ls[0]), ParseTunnels(ls[2..]))
      case (Some(name), Some(names)) => Some([name] + names)
      case _ => None
  }

  function ParseSni(text: string): Option<seq<string>> {
    match Lines(text)
    case None => None
    case Some(ls) => if ls == [] || ls[0] != "sni:" then None else ParseTunnels(ls[1..])
  }

  const DirectName: DomainRule -> seq<string> := (d: DomainRule) => if d.action == "direct" then [d.domain] else []

  lemma FqdnBack(name: string)
    requires Plain(name)
    ensures ParseFqdn(FqdnLine(name)) == Some(name)
    ensures Without(FqdnLine(name), '\n') && Without(TunnelLine, '\n')
  {
    PrefixSplit(FqdnStart, name + "'");
    var line := FqdnLine(name);
    assert line == FqdnStart + (name + "'");
    assert line[|FqdnStart|..] == name + "'";
    assert line[|FqdnStart|..|line| - 1] == name;
  }

  // A validated name never starts with a dot, so the SNI form is the name itself.
  lemma SniName(domain: string)
    requires IsDomain(domain)
    ensures DomainToSNI(domain) == domain && Plain(domain)
  {
    DomainPlain(domain);
    DomainChars(domain);
    assert domain[..1][0] == domain[0];
  }

  lemma TakeTunnel(name: string, ls: seq<string>)
    requires Plain(name) && ParseTunnels(ls).Some?
    ensures ParseTunnels([FqdnLine(name), TunnelLine] + ls) == Some([name] + ParseTunnels(ls).value)
  {
    FqdnBack(name);
    var all := [FqdnLine(name), TunnelLine] + ls;
    assert all[2..] == ls && all[0] == FqdnLine(name) && all[1] == TunnelLine;
  }

  lemma {:induction false} ParseSniLines(doms: seq<DomainRule>)
    requires forall d :: d in doms ==> ValidDomainRule(d)
    ensures ParseTunnels(FlatMap(SniLines, doms)) == Some(FlatMap(DirectName, doms))
    ensures OneLiners(FlatMap(SniLines, doms))
  {
    if doms != [] {
      var d, tail := doms[0], FlatMap(SniLines, doms[1..]);
      ParseSniLines(doms[1..]);
      assert ValidDomainRule(d);
      SniName(d.domain);
      FqdnBack(d.domain);
      TakeTunnel(d.domain, tail);
      FqdnBack(d.domain);
      var one, names := SniLines(d), FlatMap(DirectName, doms[1..]);
      assert FlatMap(SniLines, doms) == one + tail;
      assert FlatMap(DirectName, doms) == DirectName(d) + names;
      if d.action != "direct" {
        assert one + tail == tail && DirectName(d) + names == names;
      }
    }
  }

  // The file reads back as the names of the direct rules, in order.
  lemma ParseSniText(doms: seq<DomainRule>)
    requires forall d :: d in doms ==> ValidDomainRule(d)
    ensures ParseSni(SniText(doms)) == Some(FlatMap(DirectName, doms))
    ensures OneLiners([Header] + FlatMap(SniLines, doms))
  {
    ParseSniLines(doms);
    var ls := [Header] + FlatMap(SniLines, doms);
    assert Without(Header, '\n');
    LinesUnlines(ls);
    assert ls[1..] == FlatMap(SniLines, doms);
  }

  // ---- What it means ----

  // fqdn matching: *.example.com is every host that ends in .example.com
  predicate FqdnMatches(fqdn: string, host: string) {
    if HasPrefix(fqdn, "*.") then HasSuffix(host, fqdn[1..]) else host == fqdn
  }

  ghost predicate Tunnelled(names: seq<string>, host: string) {
    exists n :: n in names && FqdnMatches(n, host)
  }

  ghost predicate NamedDirect(rows: seq<DomainRule>, host: string) {
    exists d :: d in rows && d.action == "direct" && RuleMatchesHost(d.domain, host)
  }

  lemma FqdnMeaning(domain: string, host: string)
    requires IsDomain(domain)
    ensures FqdnMatches(domain, host) <==> RuleMatchesHost(domain, host)
  {
    if HasPrefix(domain, "*.") {
      assert domain[1..] == "." + domain[2..];
      SuffixIsLabels(domain[2..], host);
    }
  }

  // A host is tunnelled exactly when some direct rule names it.
  lemma TunnelledIffDirect(rows: seq<DomainRule>, doms: seq<DomainRule>, host: string) returns (names: seq<string>)
    requires (forall d :: d in rows ==> ValidDomainRule(d)) && SortOf(doms, rows, DomainPriority)
    ensures ParseSni(SniText(doms)) == Some(names)
    ensures Tunnelled(names, host) <==> NamedDirect(rows, host)
  {
    SameElements(doms, rows);
    ParseSniText(doms);
    names := FlatMap(DirectName, doms);
    forall n | n in names ensures exists d :: d in rows && d.action == "direct" && d.domain == n {
      FlatMapFrom(DirectName, doms, n);
    }
    forall d | d in rows && d.action == "direct" ensures d.domain in names {
      FlatMapFrom(DirectName, doms, d.domain);
    }
    forall d | d in rows ensures FqdnMatches(d.domain, host) <==> RuleMatchesHost(d.domain, host) {
      FqdnMeaning(d.domain, host);
    }
  }
}
