/**
From an empty database: the way that works, for every rule set and machine, and the way
that leaves a machine with torn files for good.
*/
module EndToEnd {
  import opened Text
  import opened Rules
  import opened ConfigFiles
  import opened Ties
  import opened Store
  import opened Lifecycle
  import LifecycleFacts
  import opened Sync
  import opened Answers
  import opened InForce
  import opened Helper
  import opened Protocol
  import opened ProtocolFacts
  import opened Convergence

  // A machine that was never registered.
  predicate Unregistered(x: Machine) {
    && x.phase.Idle? && !x.connected && x.proxyId == None && (x.clean ==> x.node.saved == NoHash)
    && x.host != "" && |x.host| <= 255 && |x.ip| <= 45
  }

  // ---- Service calls as steps ----

  function Calls(es: seq<Event>): seq<Step>
    decreases |es|
  {
    if es == [] then [] else [Call(es[0])] + Calls(es[1..])
  }

  lemma {:induction false} CallsRun(w: World, es: seq<Event>)
    requires AllAdmissible(w.db, es) && forall e :: e in es ==> ServiceCall(e)
    ensures IsRun(w, Calls(es)) && After(w, Calls(es)) == w.(db := ApplyAll(w.db, es))
    decreases |es|
  {
    if es != [] {
      assert es[0] in es && forall e :: e in es[1..] ==> e in es;
      CallsRun(Next(w, Call(es[0])), es[1..]);
      RunFrom(w, Call(es[0]), Calls(es[1..]));
    }
  }

  // ---- The first machine ----

  function FirstWorld(x: Machine): World { World(EmptyDb(), 0, 0, map[0 := x], multiset{}, {}) }

  const NothingLost: Lost := Lost(false, false)

  function RowOf(x: Machine): Proxy { Proxy(x.host, None, true, Some(0), NoHash, Some(x.ip)) }
  function Joined(x: Machine): Db { Db(map[], map[0 := RowOf(x)], {}) }
  function Member(x: Machine): Machine { x.(proxyId := Some(0), connected := true) }

  lemma RegistersFirst(x: Machine)
    requires Unregistered(x)
    ensures var s := Registers(0, None, 0, NothingLost, true);
            Enabled(FirstWorld(x), s) && Next(FirstWorld(x), s) == FirstWorld(Member(x)).(db := Joined(x))
  {
    var w := FirstWorld(x);
    assert ByHostname(w.db, x.host).None?;
    assert Register(w.db, RequestOf(x, None), 0, 0, NothingLost).db == Joined(x);
  }

  lemma JoinedInv(x: Machine)
    ensures Inv(Joined(x))
  {
  }

  lemma FirstIsStart(x: Machine)
    requires Unregistered(x)
    ensures Start(FirstWorld(x)) && WorldInv(FirstWorld(x))
  {
    StartInv(FirstWorld(x));
  }

  // Config 0 stands alone, with those rules, linked to the first row.
  ghost predicate Linked(db: Db, host: string, req: Request) {
    && Named(db, 0, host) && 0 in db.configs && 1 !in db.configs && 2 !in db.configs
    && db.configs[0].rules == CreateRules(req.rules) && Link(0, 0) in db.links
  }

  lemma JoinsFirst(x: Machine, after: Db, req: Request)
    requires Joins(Joined(x), after, 0, CreateRules(req.rules), 0)
    ensures Linked(after, x.host, req)
  {
    assert 1 !in after.configs.Keys && 2 !in after.configs.Keys;
  }

  lemma FirstInForce(x: Machine, req: Request, user: Id, f: Files)
    requires Creatable(req) && req.proxyIds == [0] && IsGeneration(CreateRules(req.rules), f)
    ensures AllAdmissible(Joined(x), Founding(0, req, user, f))
    ensures var db := ApplyAll(Joined(x), Founding(0, req, user, f));
            Governs(db, x.host, 0) && Linked(db, x.host, req) && Recorded(db, x.host, 0, NoHash)
  {
    JoinedInv(x);
    ComesIntoForce(Joined(x), 0, req, user, f, 0);
    assert RowOf(x).hostname == x.host;
    JoinsFirst(x, ApplyAll(Joined(x), Founding(0, req, user, f)), req);
  }

  lemma FoundingIsCalls(id: Id, req: Request, user: Id, f: Files)
    ensures forall e :: e in Founding(id, req, user, f) ==> ServiceCall(e)
  {
  }

  lemma SetUp(x: Machine, req: Request, user: Id, f: Files) returns (ss: seq<Step>)
    requires Unregistered(x) && AllAdmissible(Joined(x), Founding(0, req, user, f))
    ensures IsRun(FirstWorld(x), ss)
    ensures After(FirstWorld(x), ss) == FirstWorld(Member(x)).(db := ApplyAll(Joined(x), Founding(0, req, user, f)))
  {
    var s, es := Registers(0, None, 0, NothingLost, true), Founding(0, req, user, f);
    RegistersFirst(x);
    FoundingIsCalls(0, req, user, f);
    CallsRun(FirstWorld(Member(x)).(db := Joined(x)), es);
    RunFrom(FirstWorld(x), s, Calls(es));
    ss := [s] + Calls(es);
  }

  // The machine may poll, config 0 governs its host, and nothing was acknowledged.
  ghost predicate Ready(v: World, x: Machine, req: Request) {
    && Governs(v.db, x.host, 0) && v.machines == map[0 := Member(x)] && Linked(v.db, x.host, req)
    && v.acks == multiset{} && Recorded(v.db, x.host, 0, NoHash)
  }

  lemma GetsReady(x: Machine, req: Request, user: Id, f: Files) returns (ss: seq<Step>)
    requires Unregistered(x) && Creatable(req) && req.proxyIds == [0] && IsGeneration(CreateRules(req.rules), f)
    ensures Start(FirstWorld(x)) && IsRun(FirstWorld(x), ss)
    ensures Ready(After(FirstWorld(x), ss), x, req)
  {
    FirstIsStart(x);
    FirstInForce(x, req, user, f);
    ss := SetUp(x, req, user, f);
  }

  lemma StartRunKeeps(w: World, ss: seq<Step>)
    requires Start(w) && IsRun(w, ss)
    ensures WorldInv(After(w, ss))
  {
    StartInv(w);
    RunKeepsWorld(w, ss);
  }

  lemma MayPoll(v: World, host: string, c: Id, f: Files)
    requires 0 in v.machines && v.machines[0].connected && v.machines[0].phase.Idle? && v.machines[0].host == host
    requires Governs(v.db, host, c) && IsGeneration(v.db.configs[c].rules, f)
    ensures Enabled(v, Polls(0, false, f, f, true))
  {
  }

  // ---- The way that works ----

  // The acknowledgement puts the row in sync.
  lemma AckPutsInSync(w: World, host: string, c: Id, h: Hash) returns (p: Id)
    requires Inv(w.db) && Governs(w.db, host, c) && w.db.configs[c].hash == h && AckInFlight(host, h, true) in w.acks
    ensures var v := Next(w, AckArrives(AckInFlight(host, h, true)));
            Enabled(w, AckArrives(AckInFlight(host, h, true))) && v.machines == w.machines && v.db.configs == w.db.configs &&
            p in v.db.proxies && v.db.proxies[p].hostname == host &&
            IsActive(v.db, c) && InSync(v.db.configs[c], v.db.proxies[p].hash)
  {
    p := AckRecords(w.db, host, c, h, w.now);
  }

  lemma AckRecords(db: Db, host: string, c: Id, h: Hash, now: nat) returns (p: Id)
    requires Inv(db) && Governs(db, host, c) && db.configs[c].hash == h
    ensures var after := Ack(db, host, h, true, now).db;
            after.configs == db.configs && p in after.proxies && after.proxies[p].hostname == host &&
            IsActive(after, c) && InSync(after.configs[c], after.proxies[p].hash)
  {
    p := ByHostname(db, host).value;
    ActiveHasHash(db, host, c);
    assert Ack(db, host, h, true, now).db == SetProxy(db, p, Contact(db.proxies[p], now).(hash := h));
  }

  // One poll without a fault, by a machine that is behind.
  ghost predicate Fetched(w: World, v: World, x: Machine, f: Files) {
    && 0 in v.machines && Converged(v.machines[0].node, f) && v.machines[0].phase.Idle?
    && v.machines[0].host == x.host && v.machines[0].connected
    && v.acks == w.acks + multiset{AckInFlight(x.host, HashOf(f), true)} && SameTables(w.db, v.db)
  }

  // But for the signs of life.
  ghost predicate SameTables(db: Db, after: Db) {
    && after.configs == db.configs && after.links == db.links
    && forall p, host, h :: Recorded(db, host, p, h) ==> Recorded(after, host, p, h)
  }

  lemma PollSameTables(w: World, s: Step)
    requires Inv(w.db) && s.Polls? && Enabled(w, s)
    ensures SameTables(w.db, Next(w, s).db)
  {
    PollTouches(w, s);
    forall p, host, h | Recorded(w.db, host, p, h) ensures Recorded(Next(w, s).db, host, p, h) {
      StatsKeepsRow(w.db, w.machines[s.m].host, w.now, s.lost, host, p, h);
    }
  }

  // What the machine shows after doSync with that reply and fate.
  ghost predicate Shows(w: World, v: World, reply: ConfigReply, fate: Fate)
    requires 0 in w.machines
  {
    && 0 in v.machines && v.machines[0].node == AfterSync(w.machines[0].node, reply, fate)
    && v.machines[0].phase.Idle? && v.machines[0].host == w.machines[0].host && v.machines[0].connected
    && v.acks == w.acks + MailOf(w.machines[0].host, AckOf(reply, fate))
  }

  lemma SyncedShows(w: World, v: World, s: Step, fate: Fate)
    requires s.Polls? && s.m == 0 && Enabled(w, s) && Synced(w, v, s, fate) && ReplyTo(w, s) != UnknownHost
    ensures Shows(w, v, ReplyTo(w, s), fate)
  {
  }

  lemma SyncsOnce(w: World, c: Id, f: Files, fate: Fate) returns (ss: seq<Step>)
    requires Inv(w.db) && 0 in w.machines && w.machines[0].connected && w.machines[0].phase.Idle?
    requires Governs(w.db, w.machines[0].host, c) && IsGeneration(w.db.configs[c].rules, f)
    ensures var s := Polls(0, false, f, f, true);
            Enabled(w, s) && IsRun(w, ss) && Shows(w, After(w, ss), ReplyTo(w, s), fate) && After(w, ss).db == Next(w, s).db
  {
    var s := Polls(0, false, f, f, true);
    MayPoll(w, w.machines[0].host, c, f);
    ss := DoSyncIsRun(w, s, fate);
    KnownHostReply(w, s, c);
    SyncedShows(w, After(w, ss), s, fate);
  }

  lemma KnownHostReply(w: World, s: Step, c: Id)
    requires Inv(w.db) && s.Polls? && Enabled(w, s) && Governs(w.db, w.machines[s.m].host, c)
    ensures ReplyTo(w, s) ==
            if w.db.configs[c].hash == w.machines[s.m].node.saved then Unchanged else Changed(w.db.configs[c].hash, s.files)
  {
    var x := w.machines[s.m];
    ActiveHasHash(w.db, x.host, c);
    StoredHashReply(w.db, x.host, x.node.saved, w.now, s.lost, s.files, s.again, c);
  }

  lemma ShowsConverged(w: World, v: World, f: Files)
    requires 0 in w.machines && Shows(w, v, ReplyFor(f, w.machines[0].node.saved), Fate(3, true, SaveDone))
    requires w.machines[0].node.saved != HashOf(f) && Complete(f) && SameTables(w.db, v.db)
    ensures Fetched(w, v, w.machines[0], f)
  {
    PollConvergesIff(w.machines[0].node, f, Fate(3, true, SaveDone));
  }

  lemma Fetches(w: World, c: Id, f: Files) returns (ss: seq<Step>)
    requires Inv(w.db) && 0 in w.machines && w.machines[0].connected && w.machines[0].phase.Idle?
    requires Serves(w.db, w.machines[0].host, c, f) && w.machines[0].node.saved != HashOf(f)
    ensures IsRun(w, ss) && Fetched(w, After(w, ss), w.machines[0], f)
    ensures Inv(After(w, ss).db) && Serves(After(w, ss).db, w.machines[0].host, c, f)
  {
    ss := SyncsOnce(w, c, f, Fate(3, true, SaveDone));
    ServedReply(w, Polls(0, false, f, f, true), c, f);
    ServedComplete(w.db.configs[c].rules, f);
    PollKeepsGoverning(w, Polls(0, false, f, f, true), c);
    PollSameTables(w, Polls(0, false, f, f, true));
    ShowsConverged(w, After(w, ss), f);
  }

  // The machine has the files, and the backend knows.
  ghost predicate Arrived(v: World, host: string, c: Id, p: Id, f: Files) {
    && 0 in v.machines && Converged(v.machines[0].node, f)
    && p in v.db.proxies && v.db.proxies[p].hostname == host
    && IsActive(v.db, c) && InSync(v.db.configs[c], v.db.proxies[p].hash)
  }

  lemma FetchAndAck(v: World, c: Id, f: Files) returns (ss: seq<Step>, p: Id)
    requires Inv(v.db) && 0 in v.machines && v.machines[0].connected && v.machines[0].phase.Idle?
    requires Serves(v.db, v.machines[0].host, c, f) && v.machines[0].node.saved != HashOf(f)
    ensures IsRun(v, ss) && Arrived(After(v, ss), v.machines[0].host, c, p, f)
  {
    var host := v.machines[0].host;
    ss := Fetches(v, c, f);
    LifecycleFacts.HashIsCurrent(After(v, ss).db, c, f);
    p := AckPutsInSync(After(v, ss), host, c, HashOf(f));
    OneMore(v, ss, AckArrives(AckInFlight(host, HashOf(f), true)));
    ss := ss + [AckArrives(AckInFlight(host, HashOf(f), true))];
  }

  // Every rule set with harmless ties reaches every machine that is behind.
  lemma EveryRuleSetArrives(x: Machine, req: Request, user: Id, f: Files) returns (ss: seq<Step>, p: Id)
    requires Unregistered(x) && Determinate(req) && req.proxyIds == [0] && IsGeneration(CreateRules(req.rules), f)
    requires x.node.saved != HashOf(f)
    ensures Start(FirstWorld(x)) && IsRun(FirstWorld(x), ss) && Arrived(After(FirstWorld(x), ss), x.host, 0, p, f)
  {
    var setup := GetsReady(x, req, user, f);
    StartRunKeeps(FirstWorld(x), setup);
    var tail;
    tail, p := FetchAndAck(After(FirstWorld(x), setup), 0, f);
    RunThen(FirstWorld(x), setup, tail);
    ss := setup + tail;
  }

  // ---- The way that tears ----

  function TornNode(f: Files, g: Files): Node { Node(Mix(f, g, 1), f, HashOf(f)) }

  lemma TornBy(w: World, v: World, f: Files, g: Files, host: string)
    requires Settled(w, 0, host, Node(f, f, HashOf(f))) && Complete(g) && HashOf(f) != HashOf(g)
    requires Shows(w, v, ReplyFor(g, HashOf(f)), Fate(1, true, SaveDone))
    ensures Settled(v, 0, host, TornNode(f, g))
  {
  }

  // The poll for g stops after one file.
  lemma TearsOnce(w: World, f: Files, g: Files, host: string) returns (ss: seq<Step>)
    requires Inv(w.db) && Settled(w, 0, host, Node(f, f, HashOf(f))) && w.machines[0].connected
    requires Serves(w.db, host, 1, g) && HashOf(f) != HashOf(g)
    ensures IsRun(w, ss) && Settled(After(w, ss), 0, host, TornNode(f, g)) && SameTables(w.db, After(w, ss).db)
  {
    ss := SyncsOnce(w, 1, g, Fate(1, true, SaveDone));
    ServedReply(w, Polls(0, false, g, g, true), 1, g);
    ServedComplete(w.db.configs[1].rules, g);
    PollSameTables(w, Polls(0, false, g, g, true));
    TornBy(w, After(w, ss), f, g, host);
  }

  // As Linked, with config 1 beside config 0.
  ghost predicate LinkedTwo(db: Db, host: string, req: Request) {
    && Named(db, 0, host) && 0 in db.configs && 2 !in db.configs
    && db.configs[0].rules == CreateRules(req.rules) && Link(0, 0) in db.links
  }

  lemma JoinsSecond(db: Db, after: Db, host: string, a: Request, rules: RuleSet)
    requires Linked(db, host, a) && Joins(db, after, 1, rules, 0)
    ensures LinkedTwo(after, host, a)
  {
    assert 2 !in after.configs.Keys;
  }

  lemma SecondInForce(db: Db, host: string, a: Request, b: Request, user: Id, g: Files)
    requires Inv(db) && Linked(db, host, a) && Determinate(b) && b.proxyIds == [0] && IsGeneration(CreateRules(b.rules), g)
    ensures AllAdmissible(db, Founding(1, b, user, g))
    ensures var after := ApplyAll(db, Founding(1, b, user, g)); Serves(after, host, 1, g) && LinkedTwo(after, host, a)
  {
    ComesIntoForce(db, 1, b, user, g, 0);
    JoinsSecond(db, ApplyAll(db, Founding(1, b, user, g)), host, a, CreateRules(b.rules));
  }

  // Config 1 comes into force.
  lemma SecondConfig(w: World, host: string, a: Request, b: Request, user: Id, g: Files) returns (ss: seq<Step>)
    requires Inv(w.db) && Linked(w.db, host, a) && Determinate(b) && b.proxyIds == [0] && IsGeneration(CreateRules(b.rules), g)
    ensures IsRun(w, ss) && After(w, ss).machines == w.machines
    ensures Serves(After(w, ss).db, host, 1, g) && LinkedTwo(After(w, ss).db, host, a)
  {
    SecondInForce(w.db, host, a, b, user, g);
    FoundingIsCalls(1, b, user, g);
    CallsRun(w, Founding(1, b, user, g));
    ss := Calls(Founding(1, b, user, g));
  }

  lemma ThirdInForce(db: Db, host: string, a: Request, user: Id, f: Files)
    requires Inv(db) && LinkedTwo(db, host, a) && Determinate(a) && IsGeneration(CreateRules(a.rules), f)
    ensures AllAdmissible(db, Copying(0, 2, user, CreateRules(a.rules), f))
    ensures Serves(ApplyAll(db, Copying(0, 2, user, CreateRules(a.rules), f)), host, 2, f)
  {
    CloneComesIntoForce(db, 0, 2, user, f, 0);
  }

  lemma CopyingIsCalls(user: Id, rules: RuleSet, f: Files)
    ensures forall e :: e in Copying(0, 2, user, rules, f) ==> ServiceCall(e)
  {
  }

  // The clone of config 0 comes into force.
  lemma ThirdConfig(w: World, host: string, a: Request, user: Id, f: Files) returns (ss: seq<Step>)
    requires Inv(w.db) && LinkedTwo(w.db, host, a) && Determinate(a) && IsGeneration(CreateRules(a.rules), f)
    ensures IsRun(w, ss) && After(w, ss).machines == w.machines && Serves(After(w, ss).db, host, 2, f)
  {
    ThirdInForce(w.db, host, a, user, f);
    CopyingIsCalls(user, CreateRules(a.rules), f);
    CallsRun(w, Copying(0, 2, user, CreateRules(a.rules), f));
    ss := Calls(Copying(0, 2, user, CreateRules(a.rules), f));
  }

  lemma DifferentFiles(a: Request, b: Request, f: Files, g: Files)
    requires Determinate(a) && Determinate(b) && f != g
    requires IsGeneration(CreateRules(a.rules), f) && IsGeneration(CreateRules(b.rules), g)
    ensures HashOf(f) != HashOf(g)
  {
    CreateRulesGood(a.rules);
    CreateRulesGood(b.rules);
    HashDecidesFiles(CreateRules(a.rules), CreateRules(b.rules), f, g);
  }

  lemma SameTablesLinked(db: Db, after: Db, host: string, req: Request)
    requires SameTables(db, after)
    ensures Linked(db, host, req) ==> Linked(after, host, req)
    ensures LinkedTwo(db, host, req) ==> LinkedTwo(after, host, req)
  {
    if Named(db, 0, host) { assert Recorded(db, host, 0, db.proxies[0].hash); }
  }

  // The first half: A in force, its files loaded.
  lemma LoadsFirst(x: Machine, a: Request, user: Id, f: Files) returns (ss: seq<Step>)
    requires Unregistered(x) && Determinate(a) && a.proxyIds == [0] && IsGeneration(CreateRules(a.rules), f)
    requires x.node.saved != HashOf(f)
    ensures Start(FirstWorld(x)) && IsRun(FirstWorld(x), ss)
    ensures var v := After(FirstWorld(x), ss);
            Settled(v, 0, x.host, Node(f, f, HashOf(f))) && v.machines[0].connected && Linked(v.db, x.host, a)
  {
    var setup := GetsReady(x, a, user, f);
    var w := After(FirstWorld(x), setup);
    StartRunKeeps(FirstWorld(x), setup);
    var tail := Fetches(w, 0, f);
    SameTablesLinked(w.db, After(w, tail).db, x.host, a);
    RunThen(FirstWorld(x), setup, tail);
    ss := setup + tail;
  }

  // The second: B in force, its first file written, then A again as a clone.
  lemma TearsAndReturns(w: World, host: string, a: Request, b: Request, user: Id, f: Files, g: Files) returns (ss: seq<Step>)
    requires WorldInv(w) && Settled(w, 0, host, Node(f, f, HashOf(f))) && w.machines[0].connected && Linked(w.db, host, a)
    requires Determinate(a) && Determinate(b) && b.proxyIds == [0] && f != g
    requires IsGeneration(CreateRules(a.rules), f) && IsGeneration(CreateRules(b.rules), g)
    ensures IsRun(w, ss) && Settled(After(w, ss), 0, host, TornNode(f, g)) && Serves(After(w, ss).db, host, 2, f)
  {
    DifferentFiles(a, b, f, g);
    var one := SecondConfig(w, host, a, b, user, g);
    RunKeepsWorld(w, one);
    var w1 := After(w, one);
    var two := TearsOnce(w1, f, g, host);
    RunKeepsWorld(w1, two);
    var w2 := After(w1, two);
    SameTablesLinked(w1.db, w2.db, host, a);
    var three := ThirdConfig(w2, host, a, user, f);
    RunThen(w1, two, three);
    RunThen(w, one, two + three);
    ss := one + (two + three);
  }

  // A machine that was updated from A to B, with the update cut short, and then sent back to
  // A: served the files of A, it keeps a file of B, and no run in which they stay served
  // ever repairs it. For all rule sets A and B whose parent.config differ.
  lemma TornForGood(x: Machine, a: Request, b: Request, user: Id, f: Files, g: Files) returns (ss: seq<Step>)
    requires Unregistered(x) && Determinate(a) && Determinate(b) && a.proxyIds == [0] && b.proxyIds == [0]
    requires IsGeneration(CreateRules(a.rules), f) && IsGeneration(CreateRules(b.rules), g) && f.parent != g.parent
    requires x.node.saved != HashOf(f)
    ensures Start(FirstWorld(x)) && IsRun(FirstWorld(x), ss)
    ensures Torn(After(FirstWorld(x), ss), x.host, f, g)
  {
    var first := LoadsFirst(x, a, user, f);
    StartRunKeeps(FirstWorld(x), first);
    var second := TearsAndReturns(After(FirstWorld(x), first), x.host, a, b, user, f, g);
    RunThen(FirstWorld(x), first, second);
    ss := first + second;
    StartRunKeeps(FirstWorld(x), ss);
    ServedComplete(CreateRules(b.rules), g);
    StaysTorn(After(FirstWorld(x), ss), x.host, f, g);
  }

  // Served f, hash file for f, and a file of g on disk; and so for ever.
  ghost predicate Torn(v: World, host: string, f: Files, g: Files) {
    && Serves(v.db, host, 2, f) && Settled(v, 0, host, TornNode(f, g)) && TornNode(f, g).disk != f
    && forall more :: IsRun(v, more) && ServedAll(v, more, host, f) ==> Settled(After(v, more), 0, host, TornNode(f, g))
  }

  lemma StaysTorn(v: World, host: string, f: Files, g: Files)
    requires WorldInv(v) && Serves(v.db, host, 2, f) && Settled(v, 0, host, TornNode(f, g)) && f.parent != g.parent && g.parent != ""
    ensures Torn(v, host, f, g)
  {
    assert Mix(f, g, 1) == Written(f, g, 0);
    forall more | IsRun(v, more) && ServedAll(v, more, host, f) ensures Settled(After(v, more), 0, host, TornNode(f, g)) {
      NamedMachineStays(v, more, 0, host, f, TornNode(f, g));
    }
  }

  // ---- A hostname changes hands ----

  function TwoMachines(x: Machine, y: Machine): World { World(EmptyDb(), 0, 0, map[0 := x, 1 := y], multiset{}, {}) }

  // Machine 0 was seen at the start; the clock and the last check stand at now.
  function Waiting(x: Machine, y: Machine, now: nat, online: bool): World {
    World(Db(map[], map[0 := RowOf(x).(online := online)], {}), now, now, map[0 := Member(x), 1 := y], multiset{}, {})
  }

  function Minute(): seq<Step> { [TimePasses(60), StatusCheck] }

  lemma OneMinute(x: Machine, y: Machine, now: nat)
    ensures IsRun(Waiting(x, y, now, true), Minute())
    ensures After(Waiting(x, y, now, true), Minute()) == Waiting(x, y, now + 60, now + 60 <= 120)
  {
    var w := Waiting(x, y, now, true);
    var mid := Next(w, TimePasses(60));
    assert MarkOfflineStale(mid.db, now + 60) == Waiting(x, y, now + 60, now + 60 <= 120).db;
    RunFrom(mid, StatusCheck, []);
    RunFrom(w, TimePasses(60), [StatusCheck] + []);
    assert [TimePasses(60)] + ([StatusCheck] + []) == Minute();
  }

  lemma FirstOfTwo(x: Machine, y: Machine)
    requires Unregistered(x)
    ensures var s := Registers(0, None, 0, NothingLost, true);
            Enabled(TwoMachines(x, y), s) && Next(TwoMachines(x, y), s) == Waiting(x, y, 0, true)
  {
    var w := TwoMachines(x, y);
    assert ByHostname(w.db, x.host).None?;
    assert Register(w.db, RequestOf(x, None), 0, 0, NothingLost).db == Waiting(x, y, 0, true).db;
    assert w.machines[0 := Member(x)] == Waiting(x, y, 0, true).machines;
  }

  lemma ThreeMinutes(x: Machine, y: Machine)
    ensures IsRun(Waiting(x, y, 0, true), Minute() + (Minute() + Minute()))
    ensures After(Waiting(x, y, 0, true), Minute() + (Minute() + Minute())) == Waiting(x, y, 180, false)
  {
    OneMinute(x, y, 0);
    OneMinute(x, y, 60);
    OneMinute(x, y, 120);
    RunThen(Waiting(x, y, 60, true), Minute(), Minute());
    RunThen(Waiting(x, y, 0, true), Minute(), Minute() + Minute());
  }

  lemma WaitingInv(x: Machine, y: Machine, now: nat, online: bool)
    ensures Inv(Waiting(x, y, now, online).db)
  {
  }

  ghost predicate HandedOver(v: World, x: Machine, y: Machine) {
    && v.machines == map[0 := Member(x), 1 := y.(connected := true, proxyId := Some(0))]
    && v.db.proxies == map[0 := Proxy(x.host, None, true, Some(180), NoHash, Some(y.ip))]
  }

  // The second machine, on the same host with another address, is refused while the row is
  // online, and takes it over once that has gone silent.
  lemma ChangesHands(x: Machine, y: Machine) returns (ss: seq<Step>)
    requires Unregistered(x) && Unregistered(y) && x.host == y.host && x.ip != y.ip
    ensures Start(TwoMachines(x, y)) && IsRun(TwoMachines(x, y), ss) && Enabled(After(TwoMachines(x, y), ss), Registers(1, None, 1, NothingLost, true))
    ensures var s := Registers(1, None, 1, NothingLost, true); var early := Waiting(x, y, 0, true); var late := After(TwoMachines(x, y), ss);
            Enabled(early, s) && Next(early, s) == early && HandedOver(Next(late, s), x, y)
  {
    ss := GoesSilent(x, y);
    Refused(x, y);
    Granted(x, y);
  }

  lemma GoesSilent(x: Machine, y: Machine) returns (ss: seq<Step>)
    requires Unregistered(x) && Unregistered(y)
    ensures Start(TwoMachines(x, y)) && IsRun(TwoMachines(x, y), ss) && After(TwoMachines(x, y), ss) == Waiting(x, y, 180, false)
  {
    var first := Registers(0, None, 0, NothingLost, true);
    FirstOfTwo(x, y);
    ThreeMinutes(x, y);
    ss := [first] + (Minute() + (Minute() + Minute()));
    RunFrom(TwoMachines(x, y), first, Minute() + (Minute() + Minute()));
  }

  lemma Refused(x: Machine, y: Machine)
    requires Unregistered(y) && x.host == y.host && x.ip != y.ip
    ensures var s := Registers(1, None, 1, NothingLost, true); var early := Waiting(x, y, 0, true);
            Enabled(early, s) && Next(early, s) == early
  {
    WaitingInv(x, y, 0, true);
    RegistersIff(Waiting(x, y, 0, true), Registers(1, None, 1, NothingLost, true), 0);
  }

  lemma Granted(x: Machine, y: Machine)
    requires Unregistered(y) && x.host == y.host
    ensures var s := Registers(1, None, 1, NothingLost, true); var w := Waiting(x, y, 180, false);
            Enabled(w, s) && HandedOver(Next(w, s), x, y)
  {
    var w := Waiting(x, y, 180, false);
    WaitingInv(x, y, 180, false);
    TheRow(w.db, y.host, 0);
  }
}
