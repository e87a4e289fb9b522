/** From an empty database: runs to the states from which properties fail. */
module Failures {
  import opened Text
  import opened Rules
  import opened ConfigFiles
  import opened Ties
  import opened Store
  import opened Lifecycle
  import LifecycleFacts
  import opened Claims
  import Races
  import opened Sync
  import opened InForce
  import opened Helper
  import opened Protocol
  import opened ProtocolFacts
  import opened Convergence
  import opened EndToEnd

  // ---- An acknowledgement that gets lost ----

  // The machine has the files, its row says that it has none, and no run in which they stay
  // served changes that.
  ghost predicate Forgotten(v: World, host: string, f: Files) {
    && Serves(v.db, host, 0, f) && Settled(v, 0, host, Node(f, f, HashOf(f))) && Recorded(v.db, host, 0, NoHash)
    && forall more :: IsRun(v, more) && ServedAll(v, more, host, f) ==> Recorded(After(v, more).db, host, 0, NoHash)
  }

  lemma StaysForgotten(v: World, host: string, f: Files)
    requires WorldInv(v) && Serves(v.db, host, 0, f) && Settled(v, 0, host, Node(f, f, HashOf(f)))
    requires Sole(v, 0, host) && NoneFor(v.acks, host) && Recorded(v.db, host, 0, NoHash)
    ensures Forgotten(v, host, f)
  {
    forall more | IsRun(v, more) && ServedAll(v, more, host, f) ensures Recorded(After(v, more).db, host, 0, NoHash) {
      NoneArrives(v, more, 0, host, f, Node(f, f, HashOf(f)), NoHash);
      RowIsLastArrived(v, more, host, f, 0, NoHash);
    }
  }

  lemma OnlyMachine(w: World, ss: seq<Step>, host: string)
    requires IsRun(w, ss) && w.machines.Keys == {0}
    ensures Sole(After(w, ss), 0, host)
  {
    MachinesStay(w, ss);
  }

  // The acknowledgement is sent, and lost.
  lemma LosesOnlyAck(w: World, host: string, f: Files)
    requires w.acks == multiset{AckInFlight(host, HashOf(f), true)}
    ensures var s := AckLost(AckInFlight(host, HashOf(f), true));
            Enabled(w, s) && Next(w, s) == w.(acks := multiset{})
  {
  }

  lemma FetchesAndLoses(w: World, host: string, f: Files) returns (ss: seq<Step>)
    requires Inv(w.db) && 0 in w.machines && w.machines[0].connected && w.machines[0].phase.Idle? && w.machines[0].host == host
    requires Serves(w.db, host, 0, f) && w.machines[0].node.saved != HashOf(f)
    requires w.acks == multiset{} && Recorded(w.db, host, 0, NoHash)
    ensures IsRun(w, ss) && After(w, ss).acks == multiset{} && Recorded(After(w, ss).db, host, 0, NoHash)
    ensures Settled(After(w, ss), 0, host, Node(f, f, HashOf(f))) && Serves(After(w, ss).db, host, 0, f)
  {
    ss := Fetches(w, 0, f);
    LosesOnlyAck(After(w, ss), host, f);
    OneMore(w, ss, AckLost(AckInFlight(host, HashOf(f), true)));
    ss := ss + [AckLost(AckInFlight(host, HashOf(f), true))];
  }

  // The machine may poll for config 0 and its files, which it does not name.
  ghost predicate Poised(w: World, host: string, f: Files) {
    && w.machines.Keys == {0} && w.machines[0].connected && w.machines[0].phase.Idle? && w.machines[0].host == host
    && Serves(w.db, host, 0, f) && w.machines[0].node.saved != HashOf(f)
    && w.acks == multiset{} && Recorded(w.db, host, 0, NoHash)
  }

  lemma ReadyIsPoised(w: World, x: Machine, req: Request, f: Files)
    requires Ready(w, x, req) && TiesHarmless(CreateRules(req.rules)) && IsGeneration(CreateRules(req.rules), f)
    requires x.phase.Idle? && x.node.saved != HashOf(f)
    ensures Poised(w, x.host, f)
  {
    LinkedServes(w.db, x.host, req, f);
    assert w.machines[0] == Member(x);
  }

  lemma LinkedServes(db: Db, host: string, req: Request, f: Files)
    requires Governs(db, host, 0) && Linked(db, host, req)
    requires TiesHarmless(CreateRules(req.rules)) && IsGeneration(CreateRules(req.rules), f)
    ensures Serves(db, host, 0, f)
  {
  }

  lemma LosesForGood(w: World, host: string, f: Files) returns (ss: seq<Step>)
    requires WorldInv(w) && Poised(w, host, f)
    ensures IsRun(w, ss) && Forgotten(After(w, ss), host, f)
  {
    ss := FetchesAndLoses(w, host, f);
    RunKeepsWorld(w, ss);
    OnlyMachine(w, ss, host);
    StaysForgotten(After(w, ss), host, f);
  }

  // Every rule set with harmless ties can reach a machine whose row never shows it.
  lemma AckLostForGood(x: Machine, req: Request, user: Id, f: Files) returns (ss: seq<Step>)
    requires Unregistered(x) && Determinate(req) && req.proxyIds == [0] && IsGeneration(CreateRules(req.rules), f)
    requires x.node.saved != HashOf(f)
    ensures Start(FirstWorld(x)) && IsRun(FirstWorld(x), ss) && Forgotten(After(FirstWorld(x), ss), x.host, f)
  {
    var setup := GetsReady(x, req, user, f);
    StartRunKeeps(FirstWorld(x), setup);
    ReadyIsPoised(After(FirstWorld(x), setup), x, req, f);
    var tail := LosesForGood(After(FirstWorld(x), setup), x.host, f);
    RunThen(FirstWorld(x), setup, tail);
    ss := setup + tail;
  }

  // ---- Ties that are not harmless ----

  // Shown in sync, with files that are not those of the hash.
  ghost predicate Astray(v: World, host: string, g: Files) {
    && 0 in v.machines && v.machines[0].host == host && v.machines[0].node.disk == g && v.machines[0].node.loaded == g
    && IsActive(v.db, 0) && IsGeneration(v.db.configs[0].rules, g) && v.db.configs[0].hash != HashOf(g)
    && exists p :: p in v.db.proxies && v.db.proxies[p].hostname == host && InSync(v.db.configs[0], v.db.proxies[p].hash)
  }

  // After the poll: the machine has g, and mailed the stored hash.
  ghost predicate LoadedOther(w: World, v: World, host: string, g: Files)
    requires 0 in w.db.configs
  {
    && 0 in v.machines && v.machines[0].host == host && v.machines[0].node.disk == g && v.machines[0].node.loaded == g
    && AckInFlight(host, w.db.configs[0].hash, true) in v.acks
  }

  lemma ShowsOther(w: World, v: World, host: string, g: Files)
    requires 0 in w.db.configs && 0 in w.machines && w.machines[0].host == host && Complete(g)
    requires Shows(w, v, Changed(w.db.configs[0].hash, g), Fate(3, true, SaveDone))
    ensures LoadedOther(w, v, host, g)
  {
    CompleteApply(w.machines[0].node.disk, g);
  }

  lemma LoadsOther(w: World, host: string, g: Files) returns (ss: seq<Step>)
    requires Inv(w.db) && 0 in w.machines && w.machines[0].connected && w.machines[0].phase.Idle? && w.machines[0].host == host
    requires Governs(w.db, host, 0) && IsGeneration(w.db.configs[0].rules, g) && w.machines[0].node.saved == NoHash
    ensures IsRun(w, ss) && LoadedOther(w, After(w, ss), host, g)
    ensures Inv(After(w, ss).db) && Governs(After(w, ss).db, host, 0) && After(w, ss).db.configs == w.db.configs
  {
    var s := Polls(0, false, g, g, true);
    ss := SyncsOnce(w, 0, g, Fate(3, true, SaveDone));
    ActiveHasHash(w.db, host, 0);
    KnownHostReply(w, s, 0);
    ServedComplete(w.db.configs[0].rules, g);
    PollKeepsGoverning(w, s, 0);
    ShowsOther(w, After(w, ss), host, g);
  }

  lemma GoesAstray(w: World, host: string, g: Files) returns (ss: seq<Step>)
    requires Inv(w.db) && 0 in w.machines && w.machines[0].connected && w.machines[0].phase.Idle? && w.machines[0].host == host
    requires Governs(w.db, host, 0) && IsGeneration(w.db.configs[0].rules, g) && w.machines[0].node.saved == NoHash
    requires w.db.configs[0].hash != HashOf(g)
    ensures IsRun(w, ss) && Astray(After(w, ss), host, g)
  {
    var h := w.db.configs[0].hash;
    ss := LoadsOther(w, host, g);
    var p := AckPutsInSync(After(w, ss), host, 0, h);
    OneMore(w, ss, AckArrives(AckInFlight(host, h, true)));
    ss := ss + [AckArrives(AckInFlight(host, h, true))];
  }

  // Every rule set whose ties are not harmless can be in force, and put every fresh machine
  // in sync with files that do not have the hash.
  lemma TiedGoesAstray(x: Machine, req: Request, user: Id, f: Files) returns (ss: seq<Step>, g: Files)
    requires Unregistered(x) && Creatable(req) && !TiesHarmless(CreateRules(req.rules)) && req.proxyIds == [0]
    requires IsGeneration(CreateRules(req.rules), f) && x.node.saved == NoHash
    ensures Start(FirstWorld(x)) && IsRun(FirstWorld(x), ss) && Astray(After(FirstWorld(x), ss), x.host, g)
  {
    var setup := GetsReady(x, req, user, f);
    StartRunKeeps(FirstWorld(x), setup);
    var w := After(FirstWorld(x), setup);
    GoodRules(w.db, 0);
    g := OtherFiles(w.db.configs[0].rules, w.db.configs[0].hash);
    var tail := GoesAstray(w, x.host, g);
    RunThen(FirstWorld(x), setup, tail);
    ss := setup + tail;
  }

  // There are such rule sets: two client rules with one priority.
  lemma TiedRequest(name: string, r: ClientACLRule, s: ClientACLRule) returns (req: Request)
    requires name != "" && |name| <= 255 && ValidAcl(r) && ValidAcl(s) && AclFits(r) && AclFits(s)
    requires r.cidr != s.cidr && r.priority == s.priority
    ensures Creatable(req) && !TiesHarmless(CreateRules(req.rules)) && req.rules.acl == [r, s] && req.proxyIds == [0]
  {
    req := Request(name, RuleSet("direct", [], [], [], [r, s]), [0]);
    PairCreatable(req, r, s);
    PairTies(req.rules, r, s);
  }

  lemma PairTies(rs: RuleSet, r: ClientACLRule, s: ClientACLRule)
    requires rs.acl == [r, s] && r != s && r.priority == s.priority
    ensures !TiesHarmless(CreateRules(rs))
  {
    assert r in CreateRules(rs).acl && s in CreateRules(rs).acl;
  }

  lemma PairCreatable(req: Request, r: ClientACLRule, s: ClientACLRule)
    requires req.name != "" && |req.name| <= 255 && req.rules == RuleSet("direct", [], [], [], [r, s])
    requires ValidAcl(r) && ValidAcl(s) && AclFits(r) && AclFits(s) && r.cidr != s.cidr
    ensures Creatable(req)
  {
    PairValid(WithDefault(req.rules), r, s);
    PairStorable(CreateRules(req.rules), r, s);
  }

  lemma PairValid(rs: RuleSet, r: ClientACLRule, s: ClientACLRule)
    requires rs == RuleSet("direct", [], [], [], [r, s]) && ValidAcl(r) && ValidAcl(s)
    ensures Valid(rs)
  {
  }

  lemma PairStorable(rs: RuleSet, r: ClientACLRule, s: ClientACLRule)
    requires rs == RuleSet("direct", [], [], [], [r, s]) && AclFits(r) && AclFits(s) && r.cidr != s.cidr
    ensures Storable(rs)
  {
    assert AclKey(rs.acl[0]) != AclKey(rs.acl[1]);
  }

  lemma LocalTie(r: ClientACLRule, s: ClientACLRule)
    requires r == ClientACLRule("127.0.0.1", "allow", 10) && s.cidr == "::1" && s.action == r.action && s.priority == r.priority
    ensures ValidAcl(r) && ValidAcl(s) && AclFits(r) && AclFits(s) && r.cidr != s.cidr && r.priority == s.priority
  {
    LocalHost4(r);
    LocalSix(s.cidr);
    assert |r.cidr| == 9 && |s.cidr| == 3;
  }

  // ---- Two pending configs on one proxy ----

  function TwoPending(a: Request, b: Request, user: Id): seq<Event> {
    [Created(0, a, user), Created(1, b, user), Submitted(0, user), Submitted(1, user)]
  }

  lemma FourEvents(db: Db, a: Event, b: Event, c: Event, d: Event)
    ensures var one := Apply(db, a);
            ApplyAll(db, [a, b, c, d]) == ApplyAll(one, [b, c, d]) &&
            (AllAdmissible(db, [a, b, c, d]) <==> Admissible(db, a) && AllAdmissible(one, [b, c, d]))
  {
    LifecycleFacts.RunFrom(db, a, [b, c, d]);
    assert [a] + [b, c, d] == [a, b, c, d];
  }

  ghost predicate BothPending(db: Db, user: Id) {
    ApproveGuard(db, 0, user).None? && ApproveGuard(db, 1, user).None? && ShareProxy(db, 0, 1)
  }

  lemma SubmittedBoth(db: Db, one: Db, two: Db, a: RuleSet, b: RuleSet, user: Id)
    requires Drafted(db, one, 0, a, 0) && Drafted(one, two, 1, b, 0)
    ensures BothPending(Submit(Submit(two, 0, user).db, 1, user).db, user)
  {
    assert Link(0, 0) in two.links && Link(1, 0) in two.links;
  }

  lemma BecomePending(db: Db, a: Request, b: Request, user: Id)
    requires db.configs == map[] && 0 in db.proxies && Creatable(a) && Creatable(b) && a.proxyIds == [0] && b.proxyIds == [0]
    ensures AllAdmissible(db, TwoPending(a, b, user)) && BothPending(ApplyAll(db, TwoPending(a, b, user)), user)
  {
    FourEvents(db, Created(0, a, user), Created(1, b, user), Submitted(0, user), Submitted(1, user));
    CreateEvent(db, 0, a, user);
    CreatedFor(db, 0, a, user, 0);
    var one := Create(db, 0, a, user).db;
    ThreeEvents(one, Created(1, b, user), Submitted(0, user), Submitted(1, user));
    CreateEvent(one, 1, b, user);
    CreatedFor(one, 1, b, user, 0);
    SubmittedBoth(db, one, Create(one, 1, b, user).db, CreateRules(a.rules), CreateRules(b.rules), user);
  }

  lemma RegisterThen(x: Machine, es: seq<Event>) returns (ss: seq<Step>)
    requires Unregistered(x) && AllAdmissible(Joined(x), es) && forall e :: e in es ==> ServiceCall(e)
    ensures Start(FirstWorld(x)) && IsRun(FirstWorld(x), ss) && After(FirstWorld(x), ss).db == ApplyAll(Joined(x), es)
  {
    var s := Registers(0, None, 0, NothingLost, true);
    FirstIsStart(x);
    RegistersFirst(x);
    CallsRun(FirstWorld(Member(x)).(db := Joined(x)), es);
    ProtocolFacts.RunFrom(FirstWorld(x), s, Calls(es));
    ss := [s] + Calls(es);
  }

  // Any two rule sets can wait for approval on one proxy, and then two approvals at once
  // leave both active.
  lemma ApprovalsClash(x: Machine, a: Request, b: Request, user: Id, now: nat, ha: Hash, hb: Hash) returns (ss: seq<Step>)
    requires Unregistered(x) && Creatable(a) && Creatable(b) && a.proxyIds == [0] && b.proxyIds == [0]
    ensures Start(FirstWorld(x)) && IsRun(FirstWorld(x), ss)
    ensures var db := After(FirstWorld(x), ss).db;
            ApproveGuard(db, 0, user).None? && ApproveGuard(db, 1, user).None? &&
            !OneActive(LifecycleFacts.Interleaved(db, 0, user, ha, 1, user, hb, now))
  {
    BecomePending(Joined(x), a, b, user);
    ss := RegisterThen(x, TwoPending(a, b, user));
    StartRunKeeps(FirstWorld(x), ss);
    BothApprovable(After(FirstWorld(x), ss).db, user, ha, hb, now);
  }

  lemma BothApprovable(db: Db, user: Id, ha: Hash, hb: Hash, now: nat)
    requires Inv(db) && BothPending(db, user)
    ensures ApproveGuard(db, 0, user).None? && ApproveGuard(db, 1, user).None?
    ensures !OneActive(LifecycleFacts.Interleaved(db, 0, user, ha, 1, user, hb, now))
  {
    LifecycleFacts.InterleavingSafeIff(db, 0, user, ha, 1, user, hb, now);
  }

  // ---- Two active configs to assign ----

  // Active, and linked to nothing.
  ghost predicate Loose(db: Db, c: Id) { IsActive(db, c) && forall p :: Link(c, p) !in db.links }

  predicate About(e: Event, d: Id) { (e.Created? || e.Submitted? || e.ApprovedBy?) && e.id == d }

  // What is done with another config leaves it so.
  lemma LooseStep(db: Db, e: Event, c: Id, d: Id)
    requires Inv(db) && Admissible(db, e) && Loose(db, c) && About(e, d) && c != d
    ensures Loose(Apply(db, e), c)
  {
    HoldsAfterIff(db, e, Standing(c));
    forall p ensures Link(c, p) !in Apply(db, e).links { HoldsAfterIff(db, e, LinkedTo(c, p)); }
  }

  lemma {:induction false} LooseRun(db: Db, es: seq<Event>, c: Id, d: Id)
    requires Inv(db) && AllAdmissible(db, es) && Loose(db, c) && c != d && forall e :: e in es ==> About(e, d)
    ensures Loose(ApplyAll(db, es), c)
    decreases |es|
  {
    if es != [] {
      assert es[0] in es && forall e :: e in es[1..] ==> e in es;
      LooseStep(db, es[0], c, d);
      StepKeepsInv(db, es[0]);
      LooseRun(Apply(db, es[0]), es[1..], c, d);
    }
  }

  lemma {:induction false} EventsThen(db: Db, es: seq<Event>, more: seq<Event>)
    ensures ApplyAll(db, es + more) == ApplyAll(ApplyAll(db, es), more)
    ensures AllAdmissible(db, es + more) <==> AllAdmissible(db, es) && AllAdmissible(ApplyAll(db, es), more)
    decreases |es|
  {
    if es == [] {
      assert es + more == more;
    } else {
      assert (es + more)[1..] == es[1..] + more;
      EventsThen(Apply(db, es[0]), es[1..], more);
    }
  }

  lemma FoundingIs(db: Db, id: Id, req: Request, user: Id, f: Files)
    ensures ApplyAll(db, Founding(id, req, user, f)) == InForce.Approved(Create(db, id, req, user).db, id, user, f)
    ensures forall e :: e in Founding(id, req, user, f) ==> ServiceCall(e) && About(e, id)
  {
    SubmittedAndApproved(db, Created(id, req, user), id, user, f);
  }

  // In force on p, and taken off it.
  function Shelved(id: Id, req: Request, user: Id, f: Files, p: Id): seq<Event> { Founding(id, req, user, f) + [Assigned(p, None)] }

  lemma TakenOff(db: Db, c: Id, p: Id)
    requires ActiveOn(db, c, p) && p in db.proxies && forall q :: Link(c, q) in db.links ==> q == p
    ensures Loose(Assign(db, p, None).db, c)
  {
  }

  lemma OnlyLink(db: Db, id: Id, req: Request, user: Id, f: Files, p: Id)
    requires (forall q :: Link(id, q) !in db.links) && id !in db.configs && req.proxyIds == [p]
    ensures forall q :: Link(id, q) in InForce.Approved(Create(db, id, req, user).db, id, user, f).links ==> q == p
  {
  }

  lemma TakenOffLast(db: Db, es: seq<Event>, p: Id, c: Id)
    requires AllAdmissible(db, es) && ActiveOn(ApplyAll(db, es), c, p) && p in ApplyAll(db, es).proxies
    requires forall q :: Link(c, q) in ApplyAll(db, es).links ==> q == p
    ensures AllAdmissible(db, es + [Assigned(p, None)])
    ensures var after := ApplyAll(db, es + [Assigned(p, None)]);
            Loose(after, c) && after.proxies == ApplyAll(db, es).proxies && after.configs == ApplyAll(db, es).configs
  {
    EventsThen(db, es, [Assigned(p, None)]);
    Sync.OneEvent(ApplyAll(db, es), Assigned(p, None));
    TakenOff(ApplyAll(db, es), c, p);
  }

  lemma ShelvedIsLoose(db: Db, id: Id, req: Request, user: Id, f: Files, p: Id)
    requires Inv(db) && id !in db.configs && p in db.proxies
    requires Creatable(req) && req.proxyIds == [p] && IsGeneration(CreateRules(req.rules), f)
    ensures AllAdmissible(db, Shelved(id, req, user, f, p)) && Loose(ApplyAll(db, Shelved(id, req, user, f, p)), id)
    ensures ApplyAll(db, Shelved(id, req, user, f, p)).proxies == db.proxies
    ensures ApplyAll(db, Shelved(id, req, user, f, p)).configs.Keys == db.configs.Keys + {id}
  {
    FoundingRun(db, id, req, user, f, p);
    FoundingIs(db, id, req, user, f);
    OnlyLink(db, id, req, user, f, p);
    TakenOffLast(db, Founding(id, req, user, f), p, id);
  }

  function BothFounded(a: Request, b: Request, user: Id, f: Files, g: Files, c: Id, d: Id, p: Id): seq<Event> {
    Shelved(c, a, user, f, p) + Founding(d, b, user, g)
  }

  lemma SecondFounded(db: Db, c: Id, id: Id, req: Request, user: Id, f: Files, p: Id)
    requires Inv(db) && Loose(db, c) && id !in db.configs && c != id && p in db.proxies
    requires Creatable(req) && req.proxyIds == [p] && IsGeneration(CreateRules(req.rules), f)
    ensures AllAdmissible(db, Founding(id, req, user, f))
    ensures var after := ApplyAll(db, Founding(id, req, user, f)); IsActive(after, c) && IsActive(after, id) && p in after.proxies
  {
    FoundingRun(db, id, req, user, f, p);
    FoundingIs(db, id, req, user, f);
    LooseRun(db, Founding(id, req, user, f), c, id);
  }

  lemma BothActive(db: Db, a: Request, b: Request, user: Id, f: Files, g: Files, c: Id, d: Id, p: Id)
    requires Inv(db) && c !in db.configs && d !in db.configs && c != d && p in db.proxies
    requires Creatable(a) && a.proxyIds == [p] && IsGeneration(CreateRules(a.rules), f)
    requires Creatable(b) && b.proxyIds == [p] && IsGeneration(CreateRules(b.rules), g)
    ensures AllAdmissible(db, BothFounded(a, b, user, f, g, c, d, p))
    ensures var after := ApplyAll(db, BothFounded(a, b, user, f, g, c, d, p)); IsActive(after, c) && IsActive(after, d) && p in after.proxies
  {
    FirstShelved(db, a, user, f, c, d, p);
    FoundedAfter(db, Shelved(c, a, user, f, p), b, user, g, c, d, p);
  }

  // Shelved, with the key d still free.
  ghost predicate LeavesRoom(db: Db, es: seq<Event>, c: Id, d: Id, p: Id) {
    AllAdmissible(db, es) && Loose(ApplyAll(db, es), c) && d !in ApplyAll(db, es).configs && p in ApplyAll(db, es).proxies
  }

  lemma FirstShelved(db: Db, a: Request, user: Id, f: Files, c: Id, d: Id, p: Id)
    requires Inv(db) && c !in db.configs && d !in db.configs && c != d && p in db.proxies
    requires Creatable(a) && a.proxyIds == [p] && IsGeneration(CreateRules(a.rules), f)
    ensures LeavesRoom(db, Shelved(c, a, user, f, p), c, d, p)
  {
    ShelvedIsLoose(db, c, a, user, f, p);
    RoomLeft(db, Shelved(c, a, user, f, p), c, d, p);
  }

  lemma RoomLeft(db: Db, es: seq<Event>, c: Id, d: Id, p: Id)
    requires AllAdmissible(db, es) && Loose(ApplyAll(db, es), c) && ApplyAll(db, es).proxies == db.proxies
    requires ApplyAll(db, es).configs.Keys == db.configs.Keys + {c} && c != d && d !in db.configs && p in db.proxies
    ensures LeavesRoom(db, es, c, d, p)
  {
    assert d !in ApplyAll(db, es).configs.Keys;
  }

  lemma FoundedAfter(db: Db, es: seq<Event>, req: Request, user: Id, f: Files, c: Id, d: Id, p: Id)
    requires Inv(db) && c != d && LeavesRoom(db, es, c, d, p)
    requires Creatable(req) && req.proxyIds == [p] && IsGeneration(CreateRules(req.rules), f)
    ensures AllAdmissible(db, es + Founding(d, req, user, f))
    ensures var after := ApplyAll(db, es + Founding(d, req, user, f)); IsActive(after, c) && IsActive(after, d) && p in after.proxies
  {
    RunKeepsInv(db, es);
    EventsThen(db, es, Founding(d, req, user, f));
    SecondFounded(ApplyAll(db, es), c, d, req, user, f, p);
  }

  lemma BothFoundedCalls(a: Request, b: Request, user: Id, f: Files, g: Files, c: Id, d: Id, p: Id)
    ensures forall e :: e in BothFounded(a, b, user, f, g, c, d, p) ==> ServiceCall(e)
  {
    FoundingIs(EmptyDb(), c, a, user, f);
    FoundingIs(EmptyDb(), d, b, user, g);
  }

  // Any two rule sets can both be active, and then two assignments at once to the same
  // proxy leave both active there.
  lemma AssignmentsClash(x: Machine, a: Request, b: Request, user: Id, f: Files, g: Files) returns (ss: seq<Step>)
    requires Unregistered(x) && Creatable(a) && a.proxyIds == [0] && IsGeneration(CreateRules(a.rules), f)
    requires Creatable(b) && b.proxyIds == [0] && IsGeneration(CreateRules(b.rules), g)
    ensures Start(FirstWorld(x)) && IsRun(FirstWorld(x), ss)
    ensures var db := After(FirstWorld(x), ss).db;
            AssignGuard(db, 0, Some(0)).None? && AssignGuard(db, 0, Some(1)).None? && !OneActive(Races.TwoAssigned(db, 0, 0, 0, 1))
  {
    JoinedInv(x);
    BothActive(Joined(x), a, b, user, f, g, 0, 1, 0);
    BothFoundedCalls(a, b, user, f, g, 0, 1, 0);
    ss := RegisterThen(x, BothFounded(a, b, user, f, g, 0, 1, 0));
    StartRunKeeps(FirstWorld(x), ss);
    BothAssignable(After(FirstWorld(x), ss).db, 0, 1, 0);
  }

  lemma BothAssignable(db: Db, c: Id, d: Id, p: Id)
    requires Inv(db) && IsActive(db, c) && IsActive(db, d) && c != d && p in db.proxies
    ensures AssignGuard(db, p, Some(c)).None? && AssignGuard(db, p, Some(d)).None?
    ensures !OneActive(Races.TwoAssigned(db, p, c, p, d))
  {
    Races.TwoAssignsIff(db, p, c, p, d);
  }
}
