/** Which events make the facts of the tables true and which end them, guards included. */
module Claims {
  import opened Text
  import opened Rules
  import opened ConfigFiles
  import opened Store
  import opened Lifecycle

  datatype Claim =
    | Standing(config: Id)
    | LinkedTo(config: Id, proxy: Id)
    | Awaiting(config: Id, user: Id)
    | Ruled(config: Id, rules: RuleSet)

  ghost predicate Holds(db: Db, k: Claim) {
    match k
    case Standing(c) => IsActive(db, c)
    case LinkedTo(c, p) => Link(c, p) in db.links
    case Awaiting(c, u) => c in db.configs && db.configs[c].status == PendingApproval && db.configs[c].submittedBy == Some(u)
    case Ruled(c, rules) => c in db.configs && db.configs[c].rules == rules
  }

  // ---- One event ----

  // The other active configs that share a proxy are retired.
  ghost predicate Retires(db: Db, id: Id, k: Claim) { k.Standing? && k.config != id && ShareProxy(db, id, k.config) }

  // The events that make the claim true, whatever was before ...
  ghost predicate Sets(db: Db, e: Event, k: Claim) {
    match e
    case Created(id, req, user) =>
      && Create(db, id, req, user).err.None?
      && (k == Ruled(id, CreateRules(req.rules)) || (k.LinkedTo? && k.config == id && k.proxy in req.proxyIds))
    case Updated(id, req) =>
      && Update(db, id, req).err.None?
      && (k == Ruled(id, WithDefault(req.rules)) || (k.LinkedTo? && k.config == id && k.proxy in req.proxyIds))
    case Cloned(src, id, _, rules) =>
      && src in db.configs
      && (k == Ruled(id, rules) || (k.LinkedTo? && k.config == id && Link(src, k.proxy) in db.links))
    case Submitted(id, user) => k == Awaiting(id, user) && id in db.configs && db.configs[id].status == Draft
    case ApprovedBy(id, user, _, _) => k == Standing(id) && ApproveGuard(db, id, user).None?
    case Assigned(p, c) => c.Some? && k == LinkedTo(c.value, p) && AssignGuard(db, p, c).None?
    case _ => false
  }

  // ... and those that end it, unless they set it.
  ghost predicate Ends(db: Db, e: Event, k: Claim) {
    match e
    case Updated(id, req) => (k.LinkedTo? || k.Ruled?) && k.config == id && Update(db, id, req).err.None?
    case ApprovedBy(id, user, _, _) =>
      ApproveGuard(db, id, user).None? && (Retires(db, id, k) || (k.Awaiting? && k.config == id))
    case ApproveDied(id, user) => ApproveGuard(db, id, user).None? && Retires(db, id, k)
    case Rejected(id) => k.Awaiting? && k.config == id
    case Deleted(id) => k.config == id && Delete(db, id).err.None?
    case Assigned(p, c) => k.LinkedTo? && k.proxy == p && AssignGuard(db, p, c).None?
    case AssignDied(p, c) => k.LinkedTo? && k.proxy == p && AssignGuard(db, p, c).None?
    case ProxyDeleted(p) => k.LinkedTo? && k.proxy == p
    case StaleRemoved(now) => k.LinkedTo? && k.proxy in db.proxies && Removable(db.proxies[k.proxy], now)
    case _ => false
  }

  ghost predicate Follows(db: Db, e: Event, k: Claim) {
    Holds(Apply(db, e), k) <==> Sets(db, e, k) || (Holds(db, k) && !Ends(db, e, k))
  }

  lemma CreatedFollows(db: Db, id: Id, req: Request, user: Id, k: Claim)
    requires Integrity(db) && id !in db.configs
    ensures Follows(db, Created(id, req, user), k)
  {
  }

  lemma UpdatedFollows(db: Db, id: Id, req: Request, k: Claim)
    requires Integrity(db)
    ensures Follows(db, Updated(id, req), k)
  {
  }

  lemma ClonedFollows(db: Db, src: Id, id: Id, user: Id, rules: RuleSet, k: Claim)
    requires Integrity(db) && id !in db.configs
    ensures Follows(db, Cloned(src, id, user, rules), k)
  {
  }

  lemma SubmittedFollows(db: Db, id: Id, user: Id, k: Claim)
    requires Integrity(db)
    ensures Follows(db, Submitted(id, user), k)
  {
  }

  lemma ApprovedFollows(db: Db, id: Id, user: Id, now: nat, files: Files, k: Claim)
    requires Integrity(db)
    ensures Follows(db, ApprovedBy(id, user, now, files), k)
  {
  }

  lemma ApproveDiedFollows(db: Db, id: Id, user: Id, k: Claim)
    requires Integrity(db)
    ensures Follows(db, ApproveDied(id, user), k)
  {
  }

  lemma RejectedFollows(db: Db, id: Id, k: Claim)
    requires Integrity(db)
    ensures Follows(db, Rejected(id), k)
  {
  }

  lemma DeletedFollows(db: Db, id: Id, k: Claim)
    requires Integrity(db)
    ensures Follows(db, Deleted(id), k)
  {
  }

  lemma AssignedFollows(db: Db, p: Id, c: Option<Id>, k: Claim)
    ensures Follows(db, Assigned(p, c), k)
  {
  }

  lemma AssignDiedFollows(db: Db, p: Id, c: Option<Id>, k: Claim)
    ensures Follows(db, AssignDied(p, c), k)
  {
  }

  lemma RemovedFollows(db: Db, e: Event, k: Claim)
    requires Integrity(db) && (e.ProxyDeleted? || e.StaleRemoved?)
    ensures Follows(db, e, k)
  {
  }

  lemma HashFilledFollows(db: Db, id: Id, files: Files, k: Claim)
    requires Admissible(db, HashFilled(id, files))
    ensures Follows(db, HashFilled(id, files), k)
  {
  }

  lemma RowFollows(db: Db, e: Event, k: Claim)
    requires e.ProxyAdded? || e.ProxyTouched? || e.StaleMarked?
    ensures Follows(db, e, k)
  {
  }

  // The events listed are all that matter to a claim.
  lemma HoldsAfterIff(db: Db, e: Event, k: Claim)
    requires Inv(db) && Admissible(db, e)
    ensures Holds(Apply(db, e), k) <==> Sets(db, e, k) || (Holds(db, k) && !Ends(db, e, k))
  {
    match e
    case Created(id, req, user) => CreatedFollows(db, id, req, user, k);
    case Updated(id, req) => UpdatedFollows(db, id, req, k);
    case Cloned(src, id, user, rules) => ClonedFollows(db, src, id, user, rules, k);
    case Submitted(id, user) => SubmittedFollows(db, id, user, k);
    case ApprovedBy(id, user, now, files) => ApprovedFollows(db, id, user, now, files, k);
    case ApproveDied(id, user) => ApproveDiedFollows(db, id, user, k);
    case Rejected(id) => RejectedFollows(db, id, k);
    case Deleted(id) => DeletedFollows(db, id, k);
    case Assigned(p, c) => AssignedFollows(db, p, c, k);
    case AssignDied(p, c) => AssignDiedFollows(db, p, c, k);
    case ProxyDeleted(_) => RemovedFollows(db, e, k);
    case StaleRemoved(_) => RemovedFollows(db, e, k);
    case HashFilled(id, files) => HashFilledFollows(db, id, files, k);
    case _ => RowFollows(db, e, k);
  }

  // ---- Runs ----

  // No event of the run ends the claim.
  ghost predicate Unended(db: Db, es: seq<Event>, k: Claim)
    decreases |es|
  {
    es == [] || (!Ends(db, es[0], k) && Unended(Apply(db, es[0]), es[1..], k))
  }

  // Some event sets the claim, and none after it ends it.
  ghost predicate SetAndKept(db: Db, es: seq<Event>, k: Claim)
    decreases |es|
  {
    es != [] && ((Sets(db, es[0], k) && Unended(Apply(db, es[0]), es[1..], k)) || SetAndKept(Apply(db, es[0]), es[1..], k))
  }

  ghost predicate Stays(db: Db, es: seq<Event>, k: Claim) { Holds(db, k) && Unended(db, es, k) }

  ghost predicate AtEnd(db: Db, es: seq<Event>, k: Claim) { SetAndKept(db, es, k) || Stays(db, es, k) }

  lemma AtEndUnfolds(db: Db, es: seq<Event>, k: Claim)
    requires es != []
    ensures AtEnd(db, es, k) <==>
      || SetAndKept(Apply(db, es[0]), es[1..], k)
      || ((Sets(db, es[0], k) || (Holds(db, k) && !Ends(db, es[0], k))) && Unended(Apply(db, es[0]), es[1..], k))
  {
  }

  // A claim holds after a run if and only if its last word in the run is for it.
  lemma {:induction false} AtEndIff(db: Db, es: seq<Event>, k: Claim)
    requires Inv(db) && AllAdmissible(db, es)
    ensures Holds(ApplyAll(db, es), k) <==> AtEnd(db, es, k)
    decreases |es|
  {
    if es != [] {
      AtEndUnfolds(db, es, k);
      HoldsAfterIff(db, es[0], k);
      StepKeepsInv(db, es[0]);
      AtEndIff(Apply(db, es[0]), es[1..], k);
    }
  }
}
