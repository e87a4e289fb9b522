/** Calls that overlap: exactly when the tables come to harm. */
module Races {
  import opened Text
  import opened Rules
  import opened ConfigFiles
  import opened Store
  import opened Lifecycle
  import opened LifecycleFacts
  import opened Claims

  // ---- Approve, with other events in its gaps ----

  // The hash is computed in db; then other events, the deactivation, other events again.
  ghost function Deactivated(db: Db, first: seq<Event>, id: Id): Db { DeactivateOthers(ApplyAll(db, first), id) }

  ghost function BeforeActivation(db: Db, first: seq<Event>, id: Id, second: seq<Event>): Db {
    ApplyAll(Deactivated(db, first, id), second)
  }

  ghost predicate GapsAdmissible(db: Db, first: seq<Event>, id: Id, second: seq<Event>) {
    AllAdmissible(db, first) && AllAdmissible(Deactivated(db, first, id), second)
  }

  lemma DeactivatedInv(db: Db, first: seq<Event>, id: Id)
    requires Inv(db) && AllAdmissible(db, first)
    ensures Inv(ApplyAll(db, first)) && Inv(Deactivated(db, first, id)) && Clear(Deactivated(db, first, id), id)
  {
    RunKeepsInv(db, first);
    DeactivateKeeps(ApplyAll(db, first), id);
    DeactivateShape(ApplyAll(db, first), id);
  }

  lemma GapsKeepInv(db: Db, first: seq<Event>, id: Id, second: seq<Event>)
    requires Inv(db) && GapsAdmissible(db, first, id, second)
    ensures Inv(BeforeActivation(db, first, id, second))
  {
    DeactivatedInv(db, first, id);
    RunKeepsInv(Deactivated(db, first, id), second);
  }

  // The claim has the last word of both gaps and the deactivation between them.
  ghost predicate Through(db: Db, first: seq<Event>, id: Id, second: seq<Event>, k: Claim) {
    || SetAndKept(Deactivated(db, first, id), second, k)
    || (AtEnd(db, first, k) && !Retires(ApplyAll(db, first), id, k) && Unended(Deactivated(db, first, id), second, k))
  }

  lemma DeactivateFollows(db: Db, id: Id, k: Claim)
    ensures Holds(DeactivateOthers(db, id), k) <==> Holds(db, k) && !Retires(db, id, k)
  {
  }

  lemma ThroughIff(db: Db, first: seq<Event>, id: Id, second: seq<Event>, k: Claim)
    requires Inv(db) && GapsAdmissible(db, first, id, second)
    ensures Holds(BeforeActivation(db, first, id, second), k) <==> Through(db, first, id, second, k)
  {
    DeactivatedInv(db, first, id);
    AtEndIff(db, first, k);
    DeactivateFollows(ApplyAll(db, first), id, k);
    AtEndIff(Deactivated(db, first, id), second, k);
  }

  // id is alone on its proxies, among the active configs.
  ghost predicate Clear(db: Db, id: Id) {
    forall c, p :: c != id && ActiveOn(db, c, p) ==> Link(id, p) !in db.links
  }

  lemma StaleHash(c: Config, d: Config, f: Files, old_: RuleSet)
    requires Valid(old_) && IsGeneration(old_, f) && Valid(c.rules) && WasActivated(d) && d.rules == c.rules && d.hash == HashOf(f)
    ensures Cached(d) <==> IsGeneration(c.rules, f)
  {
    if Cached(d) {
      var g :| IsGeneration(d.rules, g) && d.hash == HashOf(g);
      HashDecidesFiles(old_, c.rules, f, g);
    }
  }

  lemma ClearIff(mid: Db, id: Id, user: Id, now: nat, h: Hash)
    requires Integrity(mid) && OneActive(mid) && id in mid.configs
    ensures OneActive(SetActive(mid, id, user, now, h)) <==> Clear(mid, id)
  {
    var after := SetActive(mid, id, user, now, h);
    if Clear(mid, id) {
      SetActiveShape(mid, id, user, now, h);
    } else {
      var c, p :| c != id && ActiveOn(mid, c, p) && Link(id, p) in mid.links;
      assert ActiveOn(after, c, p) && ActiveOn(after, id, p);
    }
  }

  // Another config ends up active on p, where id ends up linked.
  ghost predicate Clashes(db: Db, first: seq<Event>, id: Id, second: seq<Event>, c: Id, p: Id) {
    && c != id && Through(db, first, id, second, Standing(c))
    && Through(db, first, id, second, LinkedTo(c, p)) && Through(db, first, id, second, LinkedTo(id, p))
  }

  lemma ClearThrough(db: Db, first: seq<Event>, id: Id, second: seq<Event>)
    requires Inv(db) && GapsAdmissible(db, first, id, second)
    ensures Clear(BeforeActivation(db, first, id, second), id) <==> !exists c, p :: Clashes(db, first, id, second, c, p)
  {
    var mid := BeforeActivation(db, first, id, second);
    forall c, p ensures Clashes(db, first, id, second, c, p) <==> c != id && ActiveOn(mid, c, p) && Link(id, p) in mid.links {
      ThroughIff(db, first, id, second, Standing(c));
      ThroughIff(db, first, id, second, LinkedTo(c, p));
      ThroughIff(db, first, id, second, LinkedTo(id, p));
    }
  }

  // The rules that the gaps leave to id are such that the hashed files are theirs.
  ghost predicate StillFilesOf(db: Db, first: seq<Event>, id: Id, second: seq<Event>, f: Files) {
    exists rules :: Through(db, first, id, second, Ruled(id, rules)) && IsGeneration(rules, f)
  }

  lemma RulesThrough(db: Db, first: seq<Event>, id: Id, second: seq<Event>, f: Files)
    requires Inv(db) && GapsAdmissible(db, first, id, second) && id in BeforeActivation(db, first, id, second).configs
    ensures StillFilesOf(db, first, id, second, f) <==> IsGeneration(BeforeActivation(db, first, id, second).configs[id].rules, f)
  {
    var mid := BeforeActivation(db, first, id, second);
    ThroughIff(db, first, id, second, Ruled(id, mid.configs[id].rules));
    forall rules | Through(db, first, id, second, Ruled(id, rules)) ensures rules == mid.configs[id].rules {
      ThroughIff(db, first, id, second, Ruled(id, rules));
    }
  }

  lemma PendingThrough(db: Db, first: seq<Event>, id: Id, second: seq<Event>, last: Id)
    requires Inv(db) && GapsAdmissible(db, first, id, second) && Through(db, first, id, second, Awaiting(id, last))
    ensures var mid := BeforeActivation(db, first, id, second);
            id in mid.configs && mid.configs[id].status == PendingApproval && mid.configs[id].submittedBy == Some(last)
  {
    ThroughIff(db, first, id, second, Awaiting(id, last));
  }

  // The activated row has the hash of f.
  lemma LateHash(db: Db, mid: Db, id: Id, user: Id, now: nat, f: Files)
    requires Inv(db) && id in db.configs && IsGeneration(db.configs[id].rules, f) && AllGood(mid) && id in mid.configs
    ensures Cached(SetActive(mid, id, user, now, HashOf(f)).configs[id]) <==> IsGeneration(mid.configs[id].rules, f)
  {
    GoodRules(db, id);
    GoodRules(mid, id);
    StaleHash(mid.configs[id], SetActive(mid, id, user, now, HashOf(f)).configs[id], f, db.configs[id].rules);
  }

  // An approval whose guarded update still finds the config pending, whatever events fall
  // into its gaps: the stored hash is right if and only if the hashed files are files of
  // the rules that the last update in the gaps left; the approver is the submitter if and
  // only if he is the last that submitted; and one config stays active per proxy if and
  // only if the gaps leave no other one active on a proxy to which they leave id linked.
  lemma LateApprovalIff(db: Db, first: seq<Event>, second: seq<Event>, id: Id, user: Id, now: nat, f: Files, last: Id)
    requires Inv(db) && ApproveGuard(db, id, user).None? && IsGeneration(db.configs[id].rules, f)
    requires GapsAdmissible(db, first, id, second) && Through(db, first, id, second, Awaiting(id, last))
    ensures id in BeforeActivation(db, first, id, second).configs
    ensures var after := SetActive(BeforeActivation(db, first, id, second), id, user, now, HashOf(f));
            (Cached(after.configs[id]) <==> StillFilesOf(db, first, id, second, f)) &&
            (after.configs[id].approvedBy == after.configs[id].submittedBy <==> user == last) &&
            (OneActive(after) <==> !exists c, p :: Clashes(db, first, id, second, c, p))
  {
    var mid := BeforeActivation(db, first, id, second);
    PendingThrough(db, first, id, second, last);
    GapsKeepInv(db, first, id, second);
    LateHash(db, mid, id, user, now, f);
    RulesThrough(db, first, id, second, f);
    ClearIff(mid, id, user, now, HashOf(f));
    ClearThrough(db, first, id, second);
  }

  // What it takes to do that harm in the second gap: another approval, or new links for id.
  // (The last two only after a deletion.)
  predicate Stirs(e: Event, id: Id) {
    (e.ApprovedBy? && e.id != id) || ((e.Updated? || e.Created? || e.Cloned?) && e.id == id)
  }

  lemma CalmSets(db: Db, e: Event, id: Id, c: Id, p: Id)
    requires Admissible(db, e) && !Stirs(e, id) && c != id
    ensures !Sets(db, e, Standing(c))
    ensures Sets(db, e, LinkedTo(c, p)) && IsActive(db, c) ==> !Sets(db, e, LinkedTo(id, p)) && Ends(db, e, LinkedTo(id, p))
    ensures Sets(db, e, LinkedTo(id, p)) ==> !Sets(db, e, LinkedTo(c, p)) && Ends(db, e, LinkedTo(c, p))
  {
  }

  lemma CalmPair(db: Db, e: Event, id: Id, c: Id, p: Id)
    requires Inv(db) && Admissible(db, e) && !Stirs(e, id) && c != id
    requires Holds(Apply(db, e), Standing(c)) && Holds(Apply(db, e), LinkedTo(c, p)) && Holds(Apply(db, e), LinkedTo(id, p))
    ensures ActiveOn(db, c, p) && Link(id, p) in db.links
  {
    CalmSets(db, e, id, c, p);
    HoldsAfterIff(db, e, Standing(c));
    HoldsAfterIff(db, e, LinkedTo(c, p));
    HoldsAfterIff(db, e, LinkedTo(id, p));
  }

  lemma CalmStep(db: Db, e: Event, id: Id)
    requires Inv(db) && Admissible(db, e) && Clear(db, id) && !Stirs(e, id)
    ensures Clear(Apply(db, e), id)
  {
    var after := Apply(db, e);
    forall c, p | c != id && ActiveOn(after, c, p) ensures Link(id, p) !in after.links {
      if Link(id, p) in after.links { CalmPair(db, e, id, c, p); }
    }
  }

  lemma {:induction false} CalmRun(db: Db, es: seq<Event>, id: Id)
    requires Inv(db) && AllAdmissible(db, es) && Clear(db, id) && forall e :: e in es ==> !Stirs(e, id)
    ensures Clear(ApplyAll(db, es), id)
    decreases |es|
  {
    if es != [] {
      assert es[0] in es && forall e :: e in es[1..] ==> e in es;
      CalmStep(db, es[0], id);
      StepKeepsInv(db, es[0]);
      CalmRun(Apply(db, es[0]), es[1..], id);
    }
  }

  lemma CalmGapIsSafe(db: Db, first: seq<Event>, second: seq<Event>, id: Id, user: Id, now: nat, h: Hash)
    requires Inv(db) && GapsAdmissible(db, first, id, second) && id in BeforeActivation(db, first, id, second).configs
    requires forall e :: e in second ==> !Stirs(e, id)
    ensures OneActive(SetActive(BeforeActivation(db, first, id, second), id, user, now, h))
  {
    DeactivatedInv(db, first, id);
    CalmRun(Deactivated(db, first, id), second, id);
    GapsKeepInv(db, first, id, second);
    ClearIff(BeforeActivation(db, first, id, second), id, user, now, h);
  }

  lemma OneEvent(db: Db, e: Event)
    ensures ApplyAll(db, [e]) == Apply(db, e) && (AllAdmissible(db, [e]) <==> Admissible(db, e))
  {
    assert [e][1..] == [];
  }

  // The second gap of the approval of a holds the whole approval of b.
  ghost function WithApproval(db: Db, a: Id, b: Id, ub: Id, now: nat, h: Hash): Db {
    Approve(DeactivateOthers(db, a), b, ub, now, h).db
  }

  // Harmless if and only if the two share no proxy.
  lemma ApprovalInGapIff(db: Db, a: Id, ua: Id, b: Id, ub: Id, now: nat, g: Files, h: Hash)
    requires Inv(db) && a != b && ApproveGuard(db, a, ua).None? && ApproveGuard(db, b, ub).None?
    requires IsGeneration(db.configs[b].rules, g)
    ensures ApproveGuard(WithApproval(db, a, b, ub, now, HashOf(g)), a, ua).None?
    ensures OneActive(SetActive(WithApproval(db, a, b, ub, now, HashOf(g)), a, ua, now, h)) <==> !ShareProxy(db, a, b)
  {
    GuardStays(db, a, ua, b, ub, now, HashOf(g));
    ApprovalKeeps(db, a, b, ub, now, g);
    ClearIff(WithApproval(db, a, b, ub, now, HashOf(g)), a, ua, now, h);
    ClearAfterApproval(db, a, b, ub, now, HashOf(g));
  }

  lemma ApprovalKeeps(db: Db, a: Id, b: Id, ub: Id, now: nat, g: Files)
    requires Inv(db) && b in db.configs && IsGeneration(db.configs[b].rules, g)
    ensures Inv(WithApproval(db, a, b, ub, now, HashOf(g)))
  {
    DeactivateKeeps(db, a);
    SameRules(db, a, b);
    ApproveKeeps(DeactivateOthers(db, a), b, ub, now, g);
  }

  lemma SameRules(db: Db, a: Id, b: Id)
    requires b in db.configs
    ensures b in DeactivateOthers(db, a).configs && DeactivateOthers(db, a).configs[b].rules == db.configs[b].rules
  {
  }

  lemma ClearAfterApproval(db: Db, a: Id, b: Id, ub: Id, now: nat, h: Hash)
    requires Integrity(db) && OneActive(db) && a != b && a in db.configs && ApproveGuard(db, b, ub).None?
    ensures Clear(Approve(DeactivateOthers(db, a), b, ub, now, h).db, a) <==> !ShareProxy(db, a, b)
  {
    var two := DeactivateOthers(db, a);
    var mid := Approve(two, b, ub, now, h).db;
    DeactivateShape(db, a);
    assert ApproveGuard(two, b, ub).None?;
    if ShareProxy(db, a, b) {
      var p :| Link(a, p) in db.links && Link(b, p) in db.links;
      assert ActiveOn(mid, b, p);
    } else {
      forall c, p | c != a && ActiveOn(mid, c, p) ensures Link(a, p) !in mid.links {
        assert c != b ==> ActiveOn(two, c, p);
      }
    }
  }

  lemma GuardStays(db: Db, a: Id, ua: Id, b: Id, ub: Id, now: nat, h: Hash)
    requires a != b && ApproveGuard(db, a, ua).None?
    ensures ApproveGuard(Approve(DeactivateOthers(db, a), b, ub, now, h).db, a, ua).None?
  {
  }

  function Rewrite(id: Id, req: Request, user: Id): seq<Event> { [Rejected(id), Updated(id, req), Submitted(id, user)] }

  lemma RewriteUnfolds(db: Db, id: Id, req: Request, user: Id)
    ensures ApplyAll(db, Rewrite(id, req, user)) == Submit(Update(Reject(db, id).db, id, req).db, id, user).db
    ensures AllAdmissible(db, Rewrite(id, req, user))
  {
    RunFrom(db, Rejected(id), [Updated(id, req)] + ([Submitted(id, user)] + []));
    RunFrom(Reject(db, id).db, Updated(id, req), [Submitted(id, user)] + []);
    RunFrom(Update(Reject(db, id).db, id, req).db, Submitted(id, user), []);
    assert [Rejected(id)] + ([Updated(id, req)] + ([Submitted(id, user)] + [])) == Rewrite(id, req, user);
  }

  lemma RewriteEnds(db: Db, id: Id, req: Request, user: Id)
    requires id in db.configs && db.configs[id].status == PendingApproval
    requires Valid(WithDefault(req.rules)) && RowsFit(db, req, WithDefault(req.rules))
    ensures var mid := Submit(Update(Reject(db, id).db, id, req).db, id, user).db;
            id in mid.configs && mid.configs[id].status == PendingApproval && mid.configs[id].rules == WithDefault(req.rules)
  {
  }

  // Rejected, rewritten and submitted again between hash and activation, for every rewrite.
  lemma RewrittenMeanwhile(db: Db, id: Id, user: Id, req: Request, other: Id, now: nat, f: Files)
    requires Inv(db) && ApproveGuard(db, id, user).None? && IsGeneration(db.configs[id].rules, f)
    requires Valid(WithDefault(req.rules)) && RowsFit(db, req, WithDefault(req.rules))
    ensures var mid := BeforeActivation(db, Rewrite(id, req, other), id, []);
            id in mid.configs && mid.configs[id].status == PendingApproval &&
            (Cached(SetActive(mid, id, user, now, HashOf(f)).configs[id]) <==> IsGeneration(WithDefault(req.rules), f))
  {
    var es := Rewrite(id, req, other);
    RewriteUnfolds(db, id, req, other);
    RewriteEnds(db, id, req, other);
    var mid := BeforeActivation(db, es, id, []);
    assert mid == Deactivated(db, es, id);
    GapsKeepInv(db, es, id, []);
    LateHash(db, mid, id, user, now, f);
  }

  // The same in the second gap: harmless if and only if whatever is active on a proxy of
  // the rewritten config shared a proxy with it before.
  lemma RelinkedMeanwhileIff(db: Db, id: Id, user: Id, req: Request, other: Id, now: nat, h: Hash)
    requires Inv(db) && ApproveGuard(db, id, user).None?
    requires Valid(WithDefault(req.rules)) && RowsFit(db, req, WithDefault(req.rules))
    ensures GapsAdmissible(db, [], id, Rewrite(id, req, other))
    ensures var mid := BeforeActivation(db, [], id, Rewrite(id, req, other));
            id in mid.configs && mid.configs[id].status == PendingApproval &&
            (OneActive(SetActive(mid, id, user, now, h)) <==>
               forall c, p :: p in req.proxyIds && ActiveOn(db, c, p) ==> ShareProxy(db, id, c))
  {
    var two := DeactivateOthers(db, id);
    DeactivatedInv(db, [], id);
    RewriteUnfolds(two, id, req, other);
    RewriteEnds(two, id, req, other);
    GapsKeepInv(db, [], id, Rewrite(id, req, other));
    ClearIff(BeforeActivation(db, [], id, Rewrite(id, req, other)), id, user, now, h);
    RelinkedClear(db, id, req, other);
  }

  lemma RelinkedClear(db: Db, id: Id, req: Request, other: Id)
    requires id in db.configs && db.configs[id].status == PendingApproval
    requires Valid(WithDefault(req.rules)) && RowsFit(db, req, WithDefault(req.rules))
    ensures var mid := Submit(Update(Reject(DeactivateOthers(db, id), id).db, id, req).db, id, other).db;
            Clear(mid, id) <==> forall c, p :: p in req.proxyIds && ActiveOn(db, c, p) ==> ShareProxy(db, id, c)
  {
    var mid := Submit(Update(Reject(DeactivateOthers(db, id), id).db, id, req).db, id, other).db;
    assert forall p :: Link(id, p) in mid.links <==> p in req.proxyIds;
    assert forall c, p :: c != id ==> (ActiveOn(mid, c, p) <==> ActiveOn(db, c, p) && !ShareProxy(db, id, c));
  }

  // ---- AssignConfig, with other events in its gaps ----

  // Checked in db; then other events, the old links dropped, other events again.
  ghost function BeforeInsert(db: Db, first: seq<Event>, p: Id, second: seq<Event>): Db {
    ApplyAll(DropLinksOfProxy(ApplyAll(db, first), p), second)
  }

  ghost predicate OthersOn(db: Db, c: Id, p: Id) { exists d :: d != c && ActiveOn(db, d, p) }

  // The foreign keys refuse a config or a proxy that is gone.
  function Inserted(mid: Db, c: Id, p: Id): Db {
    if c in mid.configs && p in mid.proxies then mid.(links := mid.links + {Link(c, p)}) else mid
  }

  lemma InsertIff(mid: Db, c: Id, p: Id)
    requires Integrity(mid) && OneActive(mid)
    ensures OneActive(Inserted(mid, c, p)) <==> (IsActive(mid, c) ==> !OthersOn(mid, c, p))
  {
    var after := Inserted(mid, c, p);
    if OthersOn(mid, c, p) && IsActive(mid, c) {
      var d :| d != c && ActiveOn(mid, d, p);
      assert ActiveOn(after, d, p) && ActiveOn(after, c, p);
    }
    if IsActive(mid, c) ==> !OthersOn(mid, c, p) {
      forall x, y, q | ActiveOn(after, x, q) && ActiveOn(after, y, q) ensures x == y {
        assert ActiveOn(mid, x, q) || (x == c && q == p);
        assert ActiveOn(mid, y, q) || (y == c && q == p);
      }
    }
  }

  ghost function Dropped(db: Db, first: seq<Event>, p: Id): Db { DropLinksOfProxy(ApplyAll(db, first), p) }

  lemma DroppedInv(db: Db, first: seq<Event>, p: Id)
    requires Inv(db) && AllAdmissible(db, first)
    ensures Inv(ApplyAll(db, first)) && Inv(Dropped(db, first, p))
    ensures forall c :: Link(c, p) !in Dropped(db, first, p).links
  {
    RunKeepsInv(db, first);
    NoNewActiveKeeps(ApplyAll(db, first), Dropped(db, first, p));
    SameConfigsGood(ApplyAll(db, first), Dropped(db, first, p));
  }

  lemma RetiredIsOver(db: Db, e: Event, es: seq<Event>, c: Id)
    requires Inv(db) && Admissible(db, e) && AllAdmissible(Apply(db, e), es) && IsActive(db, c) && Ends(db, e, Standing(c))
    ensures !IsActive(ApplyAll(Apply(db, e), es), c)
  {
    HoldsAfterIff(db, e, Standing(c));
    StepKeepsInv(db, e);
    EveryMove(db, e, c);
    ActivatedIsFrozen(Apply(db, e), es, c);
  }

  // An active config is still active after a run if and only if no event retired it.
  lemma {:induction false} StillStandingIff(db: Db, es: seq<Event>, c: Id)
    requires Inv(db) && AllAdmissible(db, es) && IsActive(db, c)
    ensures IsActive(ApplyAll(db, es), c) <==> Unended(db, es, Standing(c))
    decreases |es|
  {
    if es != [] {
      if Ends(db, es[0], Standing(c)) {
        RetiredIsOver(db, es[0], es[1..], c);
      } else {
        HoldsAfterIff(db, es[0], Standing(c));
        StepKeepsInv(db, es[0]);
        StillStandingIff(Apply(db, es[0]), es[1..], c);
      }
    }
  }

  // c is not retired in either gap.
  ghost predicate NotRetired(db: Db, first: seq<Event>, p: Id, second: seq<Event>, c: Id) {
    Unended(db, first, Standing(c)) && Unended(Dropped(db, first, p), second, Standing(c))
  }

  lemma NotRetiredIff(db: Db, first: seq<Event>, p: Id, second: seq<Event>, c: Id)
    requires Inv(db) && AllAdmissible(db, first) && AllAdmissible(Dropped(db, first, p), second) && IsActive(db, c)
    ensures IsActive(BeforeInsert(db, first, p, second), c) <==> NotRetired(db, first, p, second, c)
  {
    DroppedInv(db, first, p);
    StillStandingIff(db, first, c);
    if IsActive(ApplyAll(db, first), c) {
      StillStandingIff(Dropped(db, first, p), second, c);
    } else if IsActive(BeforeInsert(db, first, p, second), c) {
      ActivatedIsFrozen(db, first, c);
      ActivatedIsFrozen(Dropped(db, first, p), second, c);
    }
  }

  // Some event of the run links d to p, and the run leaves it linked and active.
  ghost predicate Arrives(db: Db, es: seq<Event>, d: Id, p: Id) {
    SetAndKept(db, es, LinkedTo(d, p)) && AtEnd(db, es, Standing(d))
  }

  lemma ArrivesIff(db: Db, es: seq<Event>, d: Id, p: Id)
    requires Inv(db) && AllAdmissible(db, es) && Link(d, p) !in db.links
    ensures Arrives(db, es, d, p) <==> ActiveOn(ApplyAll(db, es), d, p)
  {
    AtEndIff(db, es, LinkedTo(d, p));
    AtEndIff(db, es, Standing(d));
  }

  ghost predicate OthersArrive(db: Db, es: seq<Event>, c: Id, p: Id) { exists d :: d != c && Arrives(db, es, d, p) }

  lemma OthersArriveIff(db: Db, es: seq<Event>, c: Id, p: Id)
    requires Inv(db) && AllAdmissible(db, es) && forall d :: Link(d, p) !in db.links
    ensures OthersArrive(db, es, c, p) <==> OthersOn(ApplyAll(db, es), c, p)
  {
    forall d ensures Arrives(db, es, d, p) <==> ActiveOn(ApplyAll(db, es), d, p) { ArrivesIff(db, es, d, p); }
  }

  // An assignment of c, whatever events fall into its gaps, leaves one active config per
  // proxy if and only if c is retired in them or the second gap brings no other active
  // config to the proxy.
  lemma LateAssignIff(db: Db, first: seq<Event>, second: seq<Event>, c: Id, p: Id)
    requires Inv(db) && AssignGuard(db, p, Some(c)).None? && AllAdmissible(db, first)
    requires AllAdmissible(Dropped(db, first, p), second)
    ensures OneActive(Inserted(BeforeInsert(db, first, p, second), c, p)) <==>
            (NotRetired(db, first, p, second, c) ==> !OthersArrive(Dropped(db, first, p), second, c, p))
  {
    DroppedInv(db, first, p);
    RunKeepsInv(Dropped(db, first, p), second);
    InsertIff(BeforeInsert(db, first, p, second), c, p);
    NotRetiredIff(db, first, p, second, c);
    OthersArriveIff(Dropped(db, first, p), second, c, p);
  }

  // Calls that give the proxy a link. A clone does not: its source has none there.
  predicate LinksProxy(e: Event, p: Id) {
    (e.Assigned? && e.proxy == p) || ((e.Created? || e.Updated?) && p in e.req.proxyIds)
  }

  lemma {:induction false} BareStays(db: Db, es: seq<Event>, p: Id)
    requires Inv(db) && AllAdmissible(db, es) && (forall c :: Link(c, p) !in db.links)
    requires forall e :: e in es ==> !LinksProxy(e, p)
    ensures forall c :: Link(c, p) !in ApplyAll(db, es).links
    decreases |es|
  {
    if es != [] {
      assert es[0] in es && forall e :: e in es[1..] ==> e in es;
      forall c ensures Link(c, p) !in Apply(db, es[0]).links { HoldsAfterIff(db, es[0], LinkedTo(c, p)); }
      StepKeepsInv(db, es[0]);
      BareStays(Apply(db, es[0]), es[1..], p);
    }
  }

  // Harm needs one of them in the second gap.
  lemma UnlinkedGapIsSafe(db: Db, first: seq<Event>, second: seq<Event>, c: Id, p: Id)
    requires Inv(db) && AllAdmissible(db, first) && AllAdmissible(Dropped(db, first, p), second)
    requires forall e :: e in second ==> !LinksProxy(e, p)
    ensures OneActive(Inserted(BeforeInsert(db, first, p, second), c, p))
  {
    DroppedInv(db, first, p);
    RunKeepsInv(Dropped(db, first, p), second);
    BareStays(Dropped(db, first, p), second, p);
    InsertIff(BeforeInsert(db, first, p, second), c, p);
  }

  // Two assignments at once, both removals before both inserts.
  function TwoAssigned(db: Db, p: Id, c: Id, q: Id, d: Id): Db {
    Inserted(Inserted(DropLinksOfProxy(DropLinksOfProxy(db, p), q), c, p), d, q)
  }

  lemma TwoAssignedActives(db: Db, p: Id, c: Id, q: Id, d: Id)
    requires IsActive(db, c) && IsActive(db, d) && p in db.proxies && q in db.proxies
    ensures forall x, r :: ActiveOn(TwoAssigned(db, p, c, q, d), x, r) <==>
      (x == c && r == p) || (x == d && r == q) || (ActiveOn(db, x, r) && r != p && r != q)
  {
  }

  // Harmless if and only if they are for different proxies or of the same config.
  lemma TwoAssignsIff(db: Db, p: Id, c: Id, q: Id, d: Id)
    requires OneActive(db) && AssignGuard(db, p, Some(c)).None? && AssignGuard(db, q, Some(d)).None?
    ensures OneActive(TwoAssigned(db, p, c, q, d)) <==> p != q || c == d
  {
    TwoAssignedActives(db, p, c, q, d);
    assert ActiveOn(TwoAssigned(db, p, c, q, d), c, p) && ActiveOn(TwoAssigned(db, p, c, q, d), d, q);
  }

  // One whole assignment in the second gap of another on the same proxy.
  lemma AssignInGapIff(db: Db, p: Id, c: Id, d: Id)
    requires OneActive(db) && AssignGuard(db, p, Some(c)).None? && AssignGuard(db, p, Some(d)).None?
    ensures OneActive(Inserted(Assign(DropLinksOfProxy(db, p), p, Some(d)).db, c, p)) <==> c == d
  {
    var bare := DropLinksOfProxy(db, p);
    assert AssignGuard(bare, p, Some(d)).None?;
    assert Assign(bare, p, Some(d)).db == Inserted(DropLinksOfProxy(bare, p), d, p);
    TwoAssignsIff(db, p, d, p, c);
  }

  // Events between the check and the drop do no harm.
  lemma LateDropIsSafe(db: Db, first: seq<Event>, c: Id, p: Id)
    requires Inv(db) && AssignGuard(db, p, Some(c)).None? && AllAdmissible(db, first)
    ensures OneActive(Inserted(BeforeInsert(db, first, p, []), c, p))
  {
    UnlinkedGapIsSafe(db, first, [], c, p);
  }
}
