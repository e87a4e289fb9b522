/**
GenerateConfigFiles and GenerateConfigHash: the three files of a rule set, in every order
that tied priorities allow, and the hash of their concatenation.
*/
module ConfigFiles {
  import opened Text
  import opened Rules
  import opened Sorting
  import opened ParentConfig
  import SniYaml
  import IpAllow

  datatype Files = Files(parent: string, sni: string, allow: string)

  // SHA-256 taken as injective: a digest stands for the content it was computed from.
  datatype Hash = NoHash | Digest(content: string)

  function Concat(f: Files): string { f.parent + f.sni + f.allow }

  function HashOf(f: Files): Hash { Digest(Concat(f)) }

  // The rows in the orders in which the printing loops visit them. The domain rules are
  // sorted once for each of two files, and neither sort is stable.
  datatype Rows = Rows(
    ips: seq<IPRangeRule>, doms: seq<DomainRule>, sniDoms: seq<DomainRule>,
    ps: seq<ParentProxy>, acl: seq<ClientACLRule>)

  ghost predicate OrderOf(rows: Rows, rs: RuleSet) {
    && SortOf(rows.ips, rs.ipRanges, IpPriority) && SortOf(rows.doms, rs.domains, DomainPriority)
    && SortOf(rows.sniDoms, rs.domains, DomainPriority) && SortOf(rows.ps, rs.parents, ParentPriority)
    && SortOf(rows.acl, rs.acl, AclPriority)
  }

  function FilesOf(rows: Rows, default: string): Files {
    Files(ParentText(rows.ips, rows.doms, rows.ps, default), SniYaml.SniText(rows.sniDoms), IpAllow.AllowText(rows.acl))
  }

  // f is a possible output for the rules.
  ghost predicate IsGeneration(rs: RuleSet, f: Files) {
    exists rows :: OrderOf(rows, rs) && f == FilesOf(rows, rs.defaultAction)
  }

  // The slices are those read from the tables, in any order.
  method GenerateConfigFiles(ips: array<IPRangeRule>, doms: array<DomainRule>, parents: array<ParentProxy>,
                             acl: array<ClientACLRule>, default: string) returns (f: Files)
    modifies ips, doms, parents, acl
    ensures IsGeneration(RuleSet(default, old(doms[..]), old(ips[..]), old(parents[..]), old(acl[..])), f)
  {
    ghost var rs := RuleSet(default, doms[..], ips[..], parents[..], acl[..]);
    var parent := GenerateParentConfig(ips, doms, parents, default);
    ghost var first := doms[..];
    var sni := SniYaml.GenerateSNIYaml(doms);
    var allow := IpAllow.GenerateIPAllowYaml(acl);
    f := Files(parent, sni, allow);
    ghost var rows := Rows(ips[..], first, doms[..], parents[..], acl[..]);
    assert OrderOf(rows, rs) && f == FilesOf(rows, default);
  }

  method GenerateConfigHash(ips: array<IPRangeRule>, doms: array<DomainRule>, parents: array<ParentProxy>,
                            acl: array<ClientACLRule>, default: string) returns (h: Hash)
    modifies ips, doms, parents, acl
    ensures exists f :: IsGeneration(RuleSet(default, old(doms[..]), old(ips[..]), old(parents[..]), old(acl[..])), f)
                        && h == HashOf(f)
  {
    var f := GenerateConfigFiles(ips, doms, parents, acl, default);
    h := Digest(f.parent + f.sni + f.allow);
  }

  // ---- Row order ----

  // The same rows, stored in another order.
  ghost predicate SameRows(rs: RuleSet, other: RuleSet) {
    && multiset(rs.domains) == multiset(other.domains) && multiset(rs.ipRanges) == multiset(other.ipRanges)
    && multiset(rs.parents) == multiset(other.parents) && multiset(rs.acl) == multiset(other.acl)
    && rs.defaultAction == other.defaultAction
  }

  ghost predicate DistinctPriorities(rs: RuleSet) {
    && DistinctKeys(rs.domains, DomainPriority) && DistinctKeys(rs.ipRanges, IpPriority)
    && DistinctKeys(rs.parents, ParentPriority) && DistinctKeys(rs.acl, AclPriority)
  }

  lemma SortsAgree<T>(s: seq<T>, t: seq<T>, rows: seq<T>, key: T -> int)
    requires SortOf(s, rows, key) && Ordered(t, key) && multiset(t) == multiset(rows)
    requires DistinctKeys(rows, key)
    ensures s == t
  {
    DistinctKeysPermute(rows, s, key);
    OrderIsUnique(s, t, key);
  }

  // With distinct priorities the files depend on the set of rows alone.
  lemma RowOrderIrrelevant(rs: RuleSet, other: RuleSet, f: Files, g: Files)
    requires SameRows(rs, other) && DistinctPriorities(rs)
    requires IsGeneration(rs, f) && IsGeneration(other, g)
    ensures f == g && HashOf(f) == HashOf(g)
  {
    var p :| OrderOf(p, rs) && f == FilesOf(p, rs.defaultAction);
    var q :| OrderOf(q, other) && g == FilesOf(q, other.defaultAction);
    SortsAgree(p.ips, q.ips, rs.ipRanges, IpPriority);
    SortsAgree(p.doms, q.doms, rs.domains, DomainPriority);
    SortsAgree(p.sniDoms, q.sniDoms, rs.domains, DomainPriority);
    SortsAgree(p.ps, q.ps, rs.parents, ParentPriority);
    SortsAgree(p.acl, q.acl, rs.acl, AclPriority);
  }

  // Storing the rows in another order keeps the set of possible outputs.
  lemma SameRowsSameGenerations(rs: RuleSet, other: RuleSet, f: Files)
    requires SameRows(rs, other) && IsGeneration(rs, f)
    ensures IsGeneration(other, f)
  {
    var p :| OrderOf(p, rs) && f == FilesOf(p, rs.defaultAction);
    assert OrderOf(p, other);
  }

  lemma SomeOrder(rs: RuleSet) returns (rows: Rows)
    ensures OrderOf(rows, rs)
  {
    var ips := SomeSort(rs.ipRanges, IpPriority);
    var doms := SomeSort(rs.domains, DomainPriority);
    var ps := SomeSort(rs.parents, ParentPriority);
    var acl := SomeSort(rs.acl, AclPriority);
    rows := Rows(ips, doms, doms, ps, acl);
  }

  // Every rule set has an output.
  lemma GenerationExists(rs: RuleSet) returns (f: Files)
    ensures IsGeneration(rs, f)
  {
    var rows := SomeOrder(rs);
    f := FilesOf(rows, rs.defaultAction);
  }

  // ---- No file is ever empty ----

  lemma FilesNotEmpty(rs: RuleSet, f: Files)
    requires IsGeneration(rs, f)
    ensures f.parent != "" && f.sni != "" && f.allow != ""
  {
    var p :| OrderOf(p, rs) && f == FilesOf(p, rs.defaultAction);
    assert |InfraLines()| == 9;
  }

  // ---- The concatenation can be taken apart ----

  function CutAt(ls: seq<string>, header: string): Option<(seq<string>, seq<string>)> {
    if ls == [] then None
    else if ls[0] == header then Some(([], ls[1..]))
    else match CutAt(ls[1..], header)
      case None => None
      case Some((a, b)) => Some(([ls[0]] + a, b))
  }

  lemma {:induction false} CutBack(a: seq<string>, header: string, b: seq<string>)
    requires header !in a
    ensures CutAt(a + ([header] + b), header) == Some((a, b))
  {
    var ls := a + ([header] + b);
    if a == [] {
      assert ls == [header] + b && ls[1..] == b;
    } else {
      assert ls[0] == a[0] && ls[1..] == a[1..] + ([header] + b);
      CutBack(a[1..], header, b);
      assert a == [a[0]] + a[1..];
    }
  }

  // The lines before the first header, those after it before the second, and the rest.
  function CutTwice(ls: seq<string>, h1: string, h2: string): Option<(seq<string>, seq<string>, seq<string>)> {
    match CutAt(ls, h1)
    case None => None
    case Some((a, rest)) =>
      match CutAt(rest, h2)
      case None => None
      case Some((b, c)) => Some((a, [h1] + b, [h2] + c))
  }

  lemma CutTwiceBack(a: seq<string>, b: seq<string>, c: seq<string>, h1: string, h2: string)
    requires h1 !in a && h2 !in b
    ensures CutTwice(a + ([h1] + b) + ([h2] + c), h1, h2) == Some((a, [h1] + b, [h2] + c))
  {
    assert a + ([h1] + b) + ([h2] + c) == a + ([h1] + (b + ([h2] + c)));
    CutBack(a, h1, b + ([h2] + c));
    CutBack(b, h2, c);
  }

  function SplitFiles(text: string): Option<Files> {
    match Lines(text)
    case None => None
    case Some(ls) =>
      match CutTwice(ls, SniYaml.Header, IpAllow.Header)
      case None => None
      case Some((a, b, c)) => Some(Files(Unlines(a), Unlines(b), Unlines(c)))
  }

  lemma LinesOfThree(a: seq<string>, s: seq<string>, t: seq<string>)
    requires OneLiners(a) && OneLiners(s) && OneLiners(t)
    ensures Lines(Unlines(a) + Unlines(s) + Unlines(t)) == Some(a + s + t)
  {
    UnlinesAppend(a, s);
    UnlinesAppend(a + s, t);
    LinesUnlines(a + s + t);
  }

  lemma SplitBack(a: seq<string>, b: seq<string>, c: seq<string>, f: Files)
    requires OneLiners(a) && OneLiners([SniYaml.Header] + b) && OneLiners([IpAllow.Header] + c)
    requires SniYaml.Header !in a && IpAllow.Header !in b
    requires f == Files(Unlines(a), Unlines([SniYaml.Header] + b), Unlines([IpAllow.Header] + c))
    ensures SplitFiles(Concat(f)) == Some(f)
  {
    LinesOfThree(a, [SniYaml.Header] + b, [IpAllow.Header] + c);
    CutTwiceBack(a, b, c, SniYaml.Header, IpAllow.Header);
  }

  // No line of parent.config reads "sni:".
  lemma FixedHeads(ls: seq<Line>)
    requires forall l :: l in ls && l.Comment? ==> l.text == "" || l.text[0] == '#'
    ensures SniYaml.Header !in LineTexts(ls)
  {
    forall t | t in LineTexts(ls) ensures t != SniYaml.Header {
      var i :| 0 <= i < |ls| && LineTexts(ls)[i] == t;
      assert ls[i] in ls;
      if ls[i].Rule? { EntryHead(ls[i].entry); }
      assert SniYaml.Header[0] == 's';
    }
  }

  lemma EntryHead(e: Entry)
    ensures EntryLine(e) != "" && EntryLine(e)[0] == 'd'
  {
  }

  lemma {:induction false} EntryHeads(es: seq<Entry>)
    ensures forall l :: l in PrintEntries(es) ==> l != "" && l[0] == 'd'
  {
    if es != [] {
      EntryHead(es[0]);
      EntryHeads(es[1..]);
    }
  }

  lemma ParentHasNoHeader(es: seq<Entry>)
    ensures SniYaml.Header !in InfraLines() + PrintEntries(es)
  {
    FixedHeads(Infra());
    EntryHeads(es);
    assert SniYaml.Header[0] == 's';
  }

  lemma SniLineHead(name: string)
    ensures SniYaml.FqdnLine(name) != IpAllow.Header && SniYaml.TunnelLine != IpAllow.Header
  {
    assert SniYaml.FqdnLine(name)[0] == ' ' && IpAllow.Header[0] == 'i';
  }

  lemma SniHasNoHeader(doms: seq<DomainRule>)
    ensures IpAllow.Header !in FlatMap(SniYaml.SniLines, doms)
  {
    forall l | l in FlatMap(SniYaml.SniLines, doms) ensures l != IpAllow.Header {
      FlatMapFrom(SniYaml.SniLines, doms, l);
      var d :| d in doms && l in SniYaml.SniLines(d);
      SniLineHead(SniYaml.DomainToSNI(d.domain));
    }
  }

  // The hashed text falls apart into its three files in one way only.
  lemma SplitFilesBack(rs: RuleSet, f: Files)
    requires Valid(rs) && IsGeneration(rs, f)
    ensures SplitFiles(Concat(f)) == Some(f)
  {
    var p :| OrderOf(p, rs) && f == FilesOf(p, rs.defaultAction);
    ValidRows(rs, p);
    var us := Enabled(p.ps);
    var es := UserEntries(p.ips, p.doms, us, rs.defaultAction);
    ParseParentText(p.ips, p.doms, p.ps, rs.defaultAction);
    SniYaml.ParseSniText(p.sniDoms);
    IpAllow.ParseAllowText(p.acl);
    ParentHasNoHeader(es);
    SniHasNoHeader(p.sniDoms);
    SplitBack(InfraLines() + PrintEntries(es), FlatMap(SniYaml.SniLines, p.sniDoms),
              FlatMap(IpAllow.BlockLines, IpAllow.Blocks(p.acl)), f);
  }

  lemma ValidRows(rs: RuleSet, p: Rows)
    requires Valid(rs) && OrderOf(p, rs)
    ensures (forall r :: r in p.ips ==> ValidIPRange(r)) && (forall d :: d in p.doms ==> ValidDomainRule(d))
    ensures (forall d :: d in p.sniDoms ==> ValidDomainRule(d)) && (forall q :: q in p.ps ==> ValidParent(q))
    ensures forall r :: r in p.acl ==> ValidAcl(r)
  {
    SameElements(p.ips, rs.ipRanges);
    SameElements(p.doms, rs.domains);
    SameElements(p.sniDoms, rs.domains);
    SameElements(p.ps, rs.parents);
    SameElements(p.acl, rs.acl);
  }

  // Equal hashes, equal files: for every two valid rule sets.
  lemma HashDecidesFiles(rs: RuleSet, other: RuleSet, f: Files, g: Files)
    requires Valid(rs) && Valid(other) && IsGeneration(rs, f) && IsGeneration(other, g)
    ensures HashOf(f) == HashOf(g) <==> f == g
  {
    SplitFilesBack(rs, f);
    SplitFilesBack(other, g);
  }
}
