/** Calls that put a config into force on a proxy: a new one, or a clone. */
module InForce {
  import opened Text
  import opened Rules
  import opened ConfigFiles
  import opened Ties
  import opened Store
  import opened Lifecycle
  import opened LifecycleFacts
  import opened Sync

  ghost predicate Creatable(req: Request) {
    && req.name != "" && |req.name| <= 255 && Valid(WithDefault(req.rules))
    && Storable(CreateRules(req.rules))
  }

  ghost predicate Determinate(req: Request) { Creatable(req) && TiesHarmless(CreateRules(req.rules)) }

  function Founding(id: Id, req: Request, user: Id, f: Files): seq<Event> {
    [Created(id, req, user), Submitted(id, user), ApprovedBy(id, user, 0, f)]
  }

  lemma ThreeEvents(db: Db, a: Event, b: Event, c: Event)
    ensures var one := Apply(db, a); var two := Apply(one, b);
            ApplyAll(db, [a, b, c]) == Apply(two, c) &&
            (AllAdmissible(db, [a, b, c]) <==> Admissible(db, a) && Admissible(one, b) && Admissible(two, c))
  {
    RunFrom(db, a, [b] + ([c] + []));
    RunFrom(Apply(db, a), b, [c] + []);
    RunFrom(Apply(Apply(db, a), b), c, []);
    assert [a] + ([b] + ([c] + [])) == [a, b, c];
  }

  // One config more, active on p with those rules; the rules and links of the others stay.
  ghost predicate Joins(db: Db, after: Db, id: Id, rules: RuleSet, p: Id) {
    && after.proxies == db.proxies && db.links <= after.links && after.configs.Keys == db.configs.Keys + {id}
    && (forall c :: c in db.configs ==> c in after.configs && after.configs[c].rules == db.configs[c].rules)
    && ActiveOn(after, id, p) && after.configs[id].rules == rules
  }

  // one is db with a new draft, linked to p.
  ghost predicate Drafted(db: Db, one: Db, id: Id, rules: RuleSet, p: Id) {
    && id !in db.configs && one.proxies == db.proxies && db.links <= one.links && Link(id, p) in one.links
    && id in one.configs && one.configs == db.configs[id := one.configs[id]]
    && one.configs[id].status == Draft && one.configs[id].rules == rules
  }

  lemma ApprovedJoins(db: Db, one: Db, id: Id, user: Id, rules: RuleSet, p: Id, f: Files)
    requires Drafted(db, one, id, rules, p)
    ensures var two := Submit(one, id, user).db;
            id in two.configs && two.configs[id].rules == rules && Joins(db, Approved(one, id, user, f), id, rules, p)
  {
  }

  lemma CreatedFor(db: Db, id: Id, req: Request, user: Id, p: Id)
    requires id !in db.configs && Creatable(req) && req.proxyIds == [p] && p in db.proxies
    ensures Drafted(db, Create(db, id, req, user).db, id, CreateRules(req.rules), p)
  {
    assert Link(id, p) in LinksTo(id, req.proxyIds);
  }

  // A run that ends with the submission and approval of id.
  ghost function Approved(one: Db, id: Id, user: Id, f: Files): Db {
    Approve(Submit(one, id, user).db, id, user, 0, HashOf(f)).db
  }

  lemma SubmittedAndApproved(db: Db, a: Event, id: Id, user: Id, f: Files)
    ensures var es := [a, Submitted(id, user), ApprovedBy(id, user, 0, f)]; var one := Apply(db, a);
            ApplyAll(db, es) == Approved(one, id, user, f) &&
            (Admissible(db, a) && Admissible(Submit(one, id, user).db, ApprovedBy(id, user, 0, f)) ==> AllAdmissible(db, es))
  {
    ThreeEvents(db, a, Submitted(id, user), ApprovedBy(id, user, 0, f));
  }

  lemma MayApprove(two: Db, id: Id, user: Id, rules: RuleSet, f: Files)
    requires id in two.configs && two.configs[id].rules == rules && IsGeneration(rules, f)
    ensures Admissible(two, ApprovedBy(id, user, 0, f))
  {
  }

  // After its first event a and the draft one, the config comes into force.
  lemma DraftRun(db: Db, a: Event, one: Db, id: Id, user: Id, rules: RuleSet, p: Id, f: Files)
    requires Admissible(db, a) && Apply(db, a) == one && Drafted(db, one, id, rules, p) && IsGeneration(rules, f)
    ensures AllAdmissible(db, [a, Submitted(id, user), ApprovedBy(id, user, 0, f)])
    ensures Joins(db, ApplyAll(db, [a, Submitted(id, user), ApprovedBy(id, user, 0, f)]), id, rules, p)
  {
    SubmittedAndApproved(db, a, id, user, f);
    ApprovedJoins(db, one, id, user, rules, p, f);
    MayApprove(Submit(one, id, user).db, id, user, rules, f);
  }

  lemma CreateEvent(db: Db, id: Id, req: Request, user: Id)
    requires id !in db.configs
    ensures Admissible(db, Created(id, req, user)) && Apply(db, Created(id, req, user)) == Create(db, id, req, user).db
  {
  }

  lemma FoundingRun(db: Db, id: Id, req: Request, user: Id, f: Files, p: Id)
    requires id !in db.configs && Creatable(req) && req.proxyIds == [p] && p in db.proxies
    requires IsGeneration(CreateRules(req.rules), f)
    ensures AllAdmissible(db, Founding(id, req, user, f))
    ensures Joins(db, ApplyAll(db, Founding(id, req, user, f)), id, CreateRules(req.rules), p)
  {
    CreatedFor(db, id, req, user, p);
    CreateEvent(db, id, req, user);
    DraftRun(db, Created(id, req, user), Create(db, id, req, user).db, id, user, CreateRules(req.rules), p, f);
  }

  lemma ActiveGoverns(db: Db, id: Id, p: Id)
    requires Inv(db) && ActiveOn(db, id, p)
    ensures p in db.proxies && Governs(db, db.proxies[p].hostname, id)
  {
    assert Named(db, p, db.proxies[p].hostname);
    LimitOneIsExact(db, db.proxies[p].hostname, id, id);
  }

  // Created, submitted and approved for a proxy, a config governs its host.
  lemma ComesIntoForce(db: Db, id: Id, req: Request, user: Id, f: Files, p: Id)
    requires Inv(db) && id !in db.configs && Creatable(req) && req.proxyIds == [p] && p in db.proxies
    requires IsGeneration(CreateRules(req.rules), f)
    ensures AllAdmissible(db, Founding(id, req, user, f))
    ensures var after := ApplyAll(db, Founding(id, req, user, f));
            Joins(db, after, id, CreateRules(req.rules), p) && Governs(after, db.proxies[p].hostname, id)
  {
    FoundingRun(db, id, req, user, f, p);
    RunKeepsInv(db, Founding(id, req, user, f));
    JoinedGoverns(db, ApplyAll(db, Founding(id, req, user, f)), id, CreateRules(req.rules), p);
  }

  lemma JoinedGoverns(db: Db, after: Db, id: Id, rules: RuleSet, p: Id)
    requires Inv(after) && Joins(db, after, id, rules, p) && p in db.proxies
    ensures Governs(after, db.proxies[p].hostname, id)
  {
    ActiveGoverns(after, id, p);
  }

  // So is an unedited clone, for the proxies of its source.
  ghost function Copying(src: Id, id: Id, user: Id, rules: RuleSet, f: Files): seq<Event> {
    CloneRun(src, id, user, rules, 0, f)
  }

  lemma ClonedFor(db: Db, src: Id, id: Id, user: Id, rules: RuleSet, p: Id)
    requires id !in db.configs && src in db.configs && Link(src, p) in db.links && rules == db.configs[src].rules
    ensures Drafted(db, Clone(db, src, id, user, rules).db, id, rules, p)
    ensures Admissible(db, Cloned(src, id, user, rules)) && Apply(db, Cloned(src, id, user, rules)) == Clone(db, src, id, user, rules).db
  {
    CopiedLink(db, src, id, p);
  }

  lemma CopyingRun(db: Db, src: Id, id: Id, user: Id, rules: RuleSet, f: Files, p: Id)
    requires id !in db.configs && src in db.configs && Link(src, p) in db.links
    requires rules == db.configs[src].rules && IsGeneration(rules, f)
    ensures AllAdmissible(db, Copying(src, id, user, rules, f))
    ensures Joins(db, ApplyAll(db, Copying(src, id, user, rules, f)), id, rules, p)
  {
    ClonedFor(db, src, id, user, rules, p);
    DraftRun(db, Cloned(src, id, user, rules), Clone(db, src, id, user, rules).db, id, user, rules, p, f);
  }

  lemma CloneComesIntoForce(db: Db, src: Id, id: Id, user: Id, f: Files, p: Id)
    requires Inv(db) && id !in db.configs && src in db.configs && Link(src, p) in db.links
    requires IsGeneration(db.configs[src].rules, f)
    ensures AllAdmissible(db, Copying(src, id, user, db.configs[src].rules, f)) && p in db.proxies
    ensures var after := ApplyAll(db, Copying(src, id, user, db.configs[src].rules, f));
            Joins(db, after, id, db.configs[src].rules, p) && Governs(after, db.proxies[p].hostname, id)
  {
    CopyingRun(db, src, id, user, db.configs[src].rules, f, p);
    RunKeepsInv(db, Copying(src, id, user, db.configs[src].rules, f));
    LinkedProxy(db, src, p);
    JoinedGoverns(db, ApplyAll(db, Copying(src, id, user, db.configs[src].rules, f)), id, db.configs[src].rules, p);
  }

  lemma LinkedProxy(db: Db, c: Id, p: Id)
    requires Integrity(db) && Link(c, p) in db.links
    ensures p in db.proxies
  {
    assert Link(c, p).proxy in db.proxies;
  }
}
