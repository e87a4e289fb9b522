/** What follows for every run of the config lifecycle. */
module LifecycleFacts {
  import opened Text
  import opened Rules
  import opened ConfigFiles
  import opened Ties
  import opened Store
  import opened Lifecycle

  // ---- After an approval ----

  // Every proxy of the approved config has exactly it as its active one.
  lemma ApprovalIsExclusive(db: Db, id: Id, user: Id, now: nat, f: Files, p: Id)
    requires Inv(db) && ApproveGuard(db, id, user).None? && IsGeneration(db.configs[id].rules, f)
    requires Link(id, p) in db.links
    ensures var after := Approve(db, id, user, now, HashOf(f)).db;
            p in after.proxies && ActiveFor(after, after.proxies[p].hostname) == Some(id) &&
            forall c :: ActiveOn(after, c, p) <==> c == id
  {
    var after := Approve(db, id, user, now, HashOf(f)).db;
    ApproveKeeps(db, id, user, now, f);
    assert ActiveOn(after, id, p);
    assert Named(after, p, after.proxies[p].hostname);
    LimitOneIsExact(after, after.proxies[p].hostname, id, id);
  }

  // ---- Deletion ----

  // The two guards together let through exactly the configs that were never activated.
  lemma DeleteGuardsIff(db: Db, id: Id)
    requires Inv(db) && id in db.configs
    ensures Delete(db, id).err != Some(BadRequest) <==> db.configs[id].status in {Draft, PendingApproval}
    ensures Delete(db, id).err == None <==> db.configs[id].status in {Draft, PendingApproval} && !Referenced(db, id)
  {
    GoodRules(db, id);
  }

  // ---- What is frozen ----

  // The moves of one config row.
  ghost predicate Move(c: Config, d: Config) {
    || d == c
    || (c.status == Draft && d == c.(name := d.name, rules := d.rules))
    || (c.status == Draft && d.submittedBy.Some? && d == c.(status := PendingApproval, submittedBy := d.submittedBy))
    || (c.status == PendingApproval && d == c.(status := Draft, submittedBy := None))
    || (c.status == PendingApproval && d == c.(status := Active, approvedBy := c.submittedBy, approvedAt := d.approvedAt, hash := d.hash))
    || (c.status == Active && d == c.(status := Approved))
  }

  lemma ApproveMoves(db: Db, id: Id, user: Id, now: nat, h: Hash, x: Id)
    requires x in db.configs
    ensures x in Approve(db, id, user, now, h).db.configs && Move(db.configs[x], Approve(db, id, user, now, h).db.configs[x])
    ensures x in ApproveStopped(db, id, user).configs && Move(db.configs[x], ApproveStopped(db, id, user).configs[x])
  {
  }

  lemma DraftMoves(db: Db, e: Event, x: Id)
    requires x in db.configs && Admissible(db, e)
    requires OnDrafts(e)
    ensures x in Apply(db, e).configs && Move(db.configs[x], Apply(db, e).configs[x])
  {
    match e
    case Created(id, req, user) =>
    case Updated(id, req) =>
    case Cloned(src, id, user, rules) =>
    case Submitted(id, user) =>
    case Rejected(id) =>
  }

  predicate OnProxies(e: Event) {
    e.Assigned? || e.AssignDied? || e.ProxyDeleted? || e.ProxyAdded? || e.ProxyTouched?
    || e.StaleMarked? || e.StaleRemoved?
  }

  lemma ProxyEvents(db: Db, e: Event)
    requires OnProxies(e)
    ensures Apply(db, e).configs == db.configs
  {
    match e
    case Assigned(p, c) =>
    case AssignDied(p, c) =>
    case ProxyDeleted(p) =>
    case ProxyAdded(p, row) =>
    case ProxyTouched(p, online, seen, hash, ip) =>
    case StaleMarked(now) =>
    case StaleRemoved(now) =>
  }

  lemma DeleteMoves(db: Db, id: Id, x: Id)
    requires Inv(db) && x in db.configs
    ensures if x in Delete(db, id).db.configs then Delete(db, id).db.configs[x] == db.configs[x]
            else x == id && !WasActivated(db.configs[x])
  {
    if id in db.configs { DeleteGuardsIff(db, id); }
  }

  lemma HashFills(db: Db, id: Id, f: Files)
    requires Inv(db) && Admissible(db, HashFilled(id, f))
    ensures Apply(db, HashFilled(id, f)) == db
  {
    if IsActive(db, id) { NoHashMissing(db, id); }
  }

  predicate OnDrafts(e: Event) { e.Created? || e.Updated? || e.Cloned? || e.Submitted? || e.Rejected? }

  lemma OtherMoves(db: Db, e: Event, x: Id)
    requires Inv(db) && Admissible(db, e) && x in db.configs && !OnDrafts(e) && !OnProxies(e)
    ensures if x in Apply(db, e).configs then Move(db.configs[x], Apply(db, e).configs[x])
            else e == Deleted(x) && !WasActivated(db.configs[x])
  {
    match e
    case ApprovedBy(id, user, now, files) => ApproveMoves(db, id, user, now, HashOf(files), x);
    case ApproveDied(id, user) => ApproveMoves(db, id, user, 0, NoHash, x);
    case Deleted(id) => DeleteMoves(db, id, x);
    case HashFilled(id, files) => HashFills(db, id, files);
  }

  // No event moves a row otherwise, and only a row that was never activated can go.
  lemma EveryMove(db: Db, e: Event, x: Id)
    requires Inv(db) && Admissible(db, e) && x in db.configs
    ensures if x in Apply(db, e).configs then Move(db.configs[x], Apply(db, e).configs[x])
            else e == Deleted(x) && !WasActivated(db.configs[x])
  {
    if OnDrafts(e) {
      DraftMoves(db, e, x);
    } else if OnProxies(e) {
      ProxyEvents(db, e);
    } else {
      OtherMoves(db, e, x);
    }
  }

  // The parts of an activated row that nothing changes any more.
  ghost predicate SameRecord(c: Config, d: Config) {
    && d == c.(status := d.status)
    && (c.status == Approved ==> d.status == Approved)
  }

  // Once active, a config stays, with the rules, hash and approval it had; it never
  // becomes a draft again, and once replaced it never returns.
  lemma {:induction false} ActivatedIsFrozen(db: Db, es: seq<Event>, id: Id)
    requires Inv(db) && AllAdmissible(db, es) && id in db.configs && WasActivated(db.configs[id])
    ensures id in ApplyAll(db, es).configs
    ensures WasActivated(ApplyAll(db, es).configs[id]) && SameRecord(db.configs[id], ApplyAll(db, es).configs[id])
    decreases |es|
  {
    if es != [] {
      EveryMove(db, es[0], id);
      StepKeepsInv(db, es[0]);
      ActivatedIsFrozen(Apply(db, es[0]), es[1..], id);
    }
  }

  // Rules change by an update of a draft, and in no other way.
  lemma RulesChangeOnlyInDraft(db: Db, e: Event, id: Id)
    requires Inv(db) && Admissible(db, e) && id in db.configs && id in Apply(db, e).configs
    requires Apply(db, e).configs[id].rules != db.configs[id].rules
    ensures db.configs[id].status == Draft && Apply(db, e).configs[id].status == Draft
  {
    EveryMove(db, e, id);
  }

  // ---- The stored hash ----

  // In every state that meets the invariant, the stored hash of an activated config is the
  // hash of the files generated now, whatever order the tables return their rows in.
  lemma HashIsCurrent(db: Db, id: Id, f: Files)
    requires Inv(db) && id in db.configs && WasActivated(db.configs[id])
    requires TiesHarmless(db.configs[id].rules) && IsGeneration(db.configs[id].rules, f)
    ensures db.configs[id].hash == HashOf(f)
  {
    GoodRules(db, id);
    var rs := db.configs[id].rules;
    var g :| IsGeneration(rs, g) && db.configs[id].hash == HashOf(g);
    HarmlessFollows(rs);
  }

  // ---- Clones ----

  ghost function CloneRun(src: Id, id: Id, user: Id, rules: RuleSet, now: nat, g: Files): seq<Event> {
    [Cloned(src, id, user, rules), Submitted(id, user), ApprovedBy(id, user, now, g)]
  }

  lemma RunFrom(db: Db, e: Event, rest: seq<Event>)
    ensures ApplyAll(db, [e] + rest) == ApplyAll(Apply(db, e), rest)
    ensures AllAdmissible(db, [e] + rest) <==> Admissible(db, e) && AllAdmissible(Apply(db, e), rest)
  {
    assert ([e] + rest)[1..] == rest;
  }

  lemma CloneRunUnfolds(db: Db, src: Id, id: Id, user: Id, rules: RuleSet, now: nat, g: Files)
    ensures var es := CloneRun(src, id, user, rules, now, g);
            var one := Apply(db, es[0]); var two := Apply(one, es[1]);
            ApplyAll(db, es) == Apply(two, es[2]) &&
            (AllAdmissible(db, es) <==> Admissible(db, es[0]) && Admissible(one, es[1]) && Admissible(two, es[2]))
  {
    var es := CloneRun(src, id, user, rules, now, g);
    var one := Apply(db, es[0]);
    var two := Apply(one, es[1]);
    assert es == [es[0]] + ([es[1]] + ([es[2]] + []));
    RunFrom(db, es[0], [es[1]] + ([es[2]] + []));
    RunFrom(one, es[1], [es[2]] + []);
    RunFrom(two, es[2], []);
  }

  // What the three calls leave: the clone active, with the links of its source.
  lemma CloneRunResult(db: Db, src: Id, id: Id, user: Id, rules: RuleSet, now: nat, g: Files)
    requires src in db.configs && id !in db.configs
    ensures var one := Clone(db, src, id, user, rules).db; var two := Submit(one, id, user).db;
            var after := Approve(two, id, user, now, HashOf(g)).db;
            id in two.configs && two.configs[id].rules == rules && ApproveGuard(two, id, user).None? &&
            IsActive(after, id) && after.configs[id].hash == HashOf(g) && after.links == db.links + CopiedLinks(db, src, id)
  {
  }

  lemma CopiedLink(db: Db, src: Id, id: Id, p: Id)
    requires Link(src, p) in db.links
    ensures Link(id, p) in CopiedLinks(db, src, id)
  {
    assert p in LinkedProxies(db, src);
  }

  lemma CloneRunEnds(db: Db, src: Id, id: Id, user: Id, rules: RuleSet, now: nat, g: Files)
    requires src in db.configs && AllAdmissible(db, CloneRun(src, id, user, rules, now, g))
    ensures SameRows(db.configs[src].rules, rules) && IsGeneration(rules, g)
    ensures var after := ApplyAll(db, CloneRun(src, id, user, rules, now, g));
            IsActive(after, id) && after.configs[id].hash == HashOf(g) && after.links == db.links + CopiedLinks(db, src, id)
  {
    CloneRunUnfolds(db, src, id, user, rules, now, g);
    CloneRunResult(db, src, id, user, rules, now, g);
  }

  // A clone, submitted and approved unedited, has the files and the hash of its source,
  // and takes over the proxies of its source.
  lemma CloneHasSourceFiles(db: Db, src: Id, id: Id, user: Id, rules: RuleSet, now: nat, f: Files, g: Files, p: Id)
    requires src in db.configs && TiesHarmless(db.configs[src].rules)
    requires IsGeneration(db.configs[src].rules, f)
    requires AllAdmissible(db, CloneRun(src, id, user, rules, now, g))
    ensures var after := ApplyAll(db, CloneRun(src, id, user, rules, now, g));
            g == f && IsActive(after, id) && after.configs[id].hash == HashOf(f) &&
            (Link(src, p) in db.links ==> ActiveOn(after, id, p))
  {
    CloneRunEnds(db, src, id, user, rules, now, g);
    HarmlessOrder(db.configs[src].rules, rules, f, g);
    if Link(src, p) in db.links { CopiedLink(db, src, id, p); }
  }

  // ---- Versions ----

  // The chain of clones behind each config.
  ghost function Ancestors(db: Db, anc: map<Id, seq<Id>>, e: Event): map<Id, seq<Id>> {
    match e
    case Created(id, _, _) => anc[id := []]
    case Cloned(src, id, _, _) => if src in db.configs && src in anc then anc[id := anc[src] + [src]] else anc
    case _ => anc
  }

  ghost function AncestorsAll(db: Db, anc: map<Id, seq<Id>>, es: seq<Event>): map<Id, seq<Id>>
    decreases |es|
  {
    if es == [] then anc else AncestorsAll(Apply(db, es[0]), Ancestors(db, anc, es[0]), es[1..])
  }

  ghost predicate Versioned(db: Db, anc: map<Id, seq<Id>>) {
    forall c :: c in db.configs ==> c in anc && db.configs[c].version == 1 + |anc[c]|
  }

  lemma VersionStep(db: Db, anc: map<Id, seq<Id>>, e: Event)
    requires Inv(db) && Versioned(db, anc) && Admissible(db, e)
    ensures Versioned(Apply(db, e), Ancestors(db, anc, e))
  {
    var after := Apply(db, e);
    forall c | c in after.configs
      ensures c in Ancestors(db, anc, e) && after.configs[c].version == 1 + |Ancestors(db, anc, e)[c]|
    {
      if c in db.configs {
        EveryMove(db, e, c);
      } else {
        AddedConfig(db, e, c);
      }
    }
  }

  lemma AddedConfig(db: Db, e: Event, c: Id)
    requires c !in db.configs && c in Apply(db, e).configs
    ensures || (e.Created? && e.id == c && Apply(db, e).configs[c].version == 1)
            || (e.Cloned? && e.id == c && e.src in db.configs && Apply(db, e).configs[c].version == db.configs[e.src].version + 1)
  {
    if OnProxies(e) {
      ProxyEvents(db, e);
    } else {
      match e
      case Created(id, req, user) =>
      case Cloned(src, id, user, rules) =>
      case Updated(id, req) =>
      case Submitted(id, user) =>
      case ApprovedBy(id, user, now, files) =>
      case ApproveDied(id, user) =>
      case Rejected(id) =>
      case Deleted(id) =>
      case HashFilled(id, files) =>
    }
  }

  // A version is one plus the length of the clone chain, in every run.
  lemma {:induction false} VersionCountsClones(db: Db, anc: map<Id, seq<Id>>, es: seq<Event>)
    requires Inv(db) && Versioned(db, anc) && AllAdmissible(db, es)
    ensures Versioned(ApplyAll(db, es), AncestorsAll(db, anc, es))
    decreases |es|
  {
    if es != [] {
      VersionStep(db, anc, es[0]);
      StepKeepsInv(db, es[0]);
      VersionCountsClones(Apply(db, es[0]), Ancestors(db, anc, es[0]), es[1..]);
    }
  }

  // ---- Two approvals at once ----

  // Both deactivations run before either activation.
  ghost function Interleaved(db: Db, a: Id, ua: Id, ha: Hash, b: Id, ub: Id, hb: Hash, now: nat): Db
    requires a in db.configs && b in db.configs
  {
    var mid := DeactivateOthers(DeactivateOthers(db, a), b);
    SetActive(SetActive(mid, a, ua, now, ha), b, ub, now, hb)
  }

  // The interleaving is harmless if and only if the two configs share no proxy.
  lemma InterleavingSafeIff(db: Db, a: Id, ua: Id, ha: Hash, b: Id, ub: Id, hb: Hash, now: nat)
    requires Integrity(db) && OneActive(db) && a != b
    requires ApproveGuard(db, a, ua).None? && ApproveGuard(db, b, ub).None?
    ensures OneActive(Interleaved(db, a, ua, ha, b, ub, hb, now)) <==> !ShareProxy(db, a, b)
  {
    if ShareProxy(db, a, b) {
      SharedClashes(db, a, ua, ha, b, ub, hb, now);
    } else {
      ApartIsSafe(db, a, ua, ha, b, ub, hb, now);
    }
  }

  lemma SharedClashes(db: Db, a: Id, ua: Id, ha: Hash, b: Id, ub: Id, hb: Hash, now: nat)
    requires ShareProxy(db, a, b) && a != b && a in db.configs && b in db.configs
    ensures !OneActive(Interleaved(db, a, ua, ha, b, ub, hb, now))
  {
    var after := Interleaved(db, a, ua, ha, b, ub, hb, now);
    var p :| Link(a, p) in db.links && Link(b, p) in db.links;
    assert ActiveOn(after, a, p) && ActiveOn(after, b, p);
  }

  lemma ApartIsSafe(db: Db, a: Id, ua: Id, ha: Hash, b: Id, ub: Id, hb: Hash, now: nat)
    requires Integrity(db) && OneActive(db) && a != b && !ShareProxy(db, a, b)
    requires a in db.configs && b in db.configs && !IsActive(db, a) && !IsActive(db, b)
    ensures OneActive(Interleaved(db, a, ua, ha, b, ub, hb, now))
  {
    var one := DeactivateOthers(db, a);
    var mid := DeactivateOthers(one, b);
    DeactivateShape(db, a);
    DeactivateShape(one, b);
    OldActivesApart(db, a, b);
    SetActiveShape(mid, a, ua, now, ha);
    SetActiveShape(SetActive(mid, a, ua, now, ha), b, ub, now, hb);
  }

  lemma OldActivesApart(db: Db, a: Id, b: Id)
    requires Integrity(db) && OneActive(db) && !ShareProxy(db, a, b) && a != b
    requires a in db.configs && b in db.configs && !IsActive(db, a) && !IsActive(db, b)
    ensures var mid := DeactivateOthers(DeactivateOthers(db, a), b);
            (forall c, p :: c != a && ActiveOn(mid, c, p) ==> Link(a, p) !in mid.links) &&
            (forall c, p :: c != b && (ActiveOn(mid, c, p) || (c == a && Link(a, p) in mid.links)) ==> Link(b, p) !in mid.links)
  {
    var one := DeactivateOthers(db, a);
    DeactivateShape(db, a);
    DeactivateShape(one, b);
    var mid := DeactivateOthers(one, b);
    forall c, p | c != a && ActiveOn(mid, c, p) ensures Link(a, p) !in mid.links {
      assert ActiveOn(one, c, p);
    }
  }
}
