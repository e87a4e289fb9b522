/**
Backend, helpers and network together, one small step at a time: any interleaving of
service calls, registrations, polls, single file writes, reloads, saves, lost and late
acknowledgements, restarts, clock ticks and scheduled jobs.
*/
module Protocol {
  import opened Text
  import opened Rules
  import opened ConfigFiles
  import opened Store
  import opened Lifecycle
  import opened LifecycleFacts
  import opened Sync
  import opened Helper

  // Where a helper stands in doSync. The rules are those of the config that was sent.
  datatype Phase =
    | Idle
    | Writing(hash: Hash, files: Files, rules: RuleSet, k: nat)
    | Reloaded(hash: Hash, files: Files, rules: RuleSet)
    | Saved(hash: Hash)
    | Failed(hash: Hash)

  // clean: since the hash file was last written, no file was replaced.
  datatype Machine = Machine(
    host: string, ip: string, proxyId: Option<Id>, connected: bool, node: Node, phase: Phase, clean: bool)

  // ok: the helper reports success; else that a write or the reload failed.
  datatype AckInFlight = AckInFlight(host: string, hash: Hash, ok: bool)

  // History: a machine of that host had replaced all three files and reloaded them.
  datatype Load = Load(host: string, hash: Hash, files: Files, rules: RuleSet)

  datatype World = World(
    db: Db, now: nat, lastCheck: nat, machines: map<nat, Machine>, acks: multiset<AckInFlight>, loads: set<Load>)

  datatype Step =
    | Call(e: Event)
    | Registers(m: nat, config: Option<Id>, newId: Id, losses: Lost, answered: bool)
    | LosesBackend(m: nat)
    | Polls(m: nat, lost: bool, files: Files, again: Files, answered: bool)
    | Writes(m: nat, ok: bool)
    | Reloads(m: nat, ok: bool)
    | Saves(m: nat, fate: SaveFate)
    | SendsAck(m: nat)
    | AckArrives(ack: AckInFlight)
    | AckLost(ack: AckInFlight)
    | SendsStats(m: nat, lost: bool)
    | Restarts(m: nat)
    | TimePasses(d: nat)
    | StatusCheck
    | Cleanup

  const CheckInterval: nat := 60

  predicate ServiceCall(e: Event) {
    !(e.ProxyAdded? || e.ProxyTouched? || e.HashFilled? || e.StaleMarked? || e.StaleRemoved?)
  }

  // ---- The steps ----

  ghost predicate CanPoll(w: World, s: Step) {
    && s.Polls? && s.m in w.machines && w.machines[s.m].connected && w.machines[s.m].phase.Idle?
    && var c := ActiveFor(w.db, w.machines[s.m].host);
       c.Some? ==> IsGeneration(w.db.configs[c.value].rules, s.files) && IsGeneration(w.db.configs[c.value].rules, s.again)
  }

  ghost predicate Enabled(w: World, s: Step) {
    match s
    case Call(e) => ServiceCall(e) && Admissible(w.db, e)
    case Registers(m, _, newId, _, _) => m in w.machines && !w.machines[m].connected && newId !in w.db.proxies
    case LosesBackend(m) => m in w.machines
    case Polls(_, _, _, _, _) => CanPoll(w, s)
    case Writes(m, _) => m in w.machines && w.machines[m].phase.Writing? && w.machines[m].phase.k < 3
    case Reloads(m, _) => m in w.machines && w.machines[m].phase.Writing? && w.machines[m].phase.k >= 3
    case Saves(m, _) => m in w.machines && w.machines[m].phase.Reloaded?
    case SendsAck(m) => m in w.machines && (w.machines[m].phase.Saved? || w.machines[m].phase.Failed?)
    case AckArrives(ack) => ack in w.acks
    case AckLost(ack) => ack in w.acks
    case SendsStats(m, _) => m in w.machines
    case Restarts(m) => m in w.machines
    case TimePasses(d) => w.now + d <= w.lastCheck + CheckInterval
    case StatusCheck => true
    case Cleanup => true
  }

  function Put(w: World, m: nat, x: Machine): World { w.(machines := w.machines[m := x]) }

  function RequestOf(x: Machine, config: Option<Id>): RegisterRequest {
    RegisterRequest(x.host, x.ip, x.proxyId, config)
  }

  function AfterRegister(x: Machine, reply: RegisterReply): Machine {
    match reply case Registered(id, _) => x.(proxyId := Some(id), connected := true) case Refused(_) => x
  }

  function AfterPoll(x: Machine, reply: ConfigReply, rules: RuleSet): Machine {
    match reply
    case UnknownHost => x.(connected := false)
    case Unchanged => x
    case Changed(h, f) => x.(phase := Writing(h, f, rules, 0))
  }

  ghost function RulesFor(db: Db, host: string): RuleSet {
    match ActiveFor(db, host)
    case Some(c) => db.configs[c].rules
    case None => RuleSet("", [], [], [], [])
  }

  function AfterWrite(x: Machine, ok: bool): Machine
    requires x.phase.Writing?
  {
    if !ok then x.(phase := Failed(x.phase.hash))
    else x.(node := x.node.(disk := Written(x.node.disk, x.phase.files, x.phase.k)),
            phase := x.phase.(k := x.phase.k + 1), clean := false)
  }

  function AfterReload(x: Machine, ok: bool): Machine
    requires x.phase.Writing?
  {
    if !ok then x.(phase := Failed(x.phase.hash))
    else x.(node := x.node.(loaded := x.node.disk), phase := Reloaded(x.phase.hash, x.phase.files, x.phase.rules))
  }

  function LoadOf(x: Machine): Load
    requires x.phase.Writing?
  {
    Load(x.host, x.phase.hash, x.phase.files, x.phase.rules)
  }

  function AfterSave(x: Machine, fate: SaveFate): Machine
    requires x.phase.Reloaded?
  {
    x.(node := x.node.(saved := SaveHash(x.node.saved, x.phase.hash, fate)), phase := Saved(x.phase.hash), clean := fate != SaveKept)
  }

  // What a machine reports at the end of a sync.
  function Report(x: Machine): AckInFlight
    requires x.phase.Saved? || x.phase.Failed?
  {
    AckInFlight(x.host, x.phase.hash, x.phase.Saved?)
  }

  ghost function Next(w: World, s: Step): World
    requires Enabled(w, s)
  {
    match s
    case Call(e) => w.(db := Apply(w.db, e))
    case Registers(m, config, newId, lost, answered) =>
      var x := w.machines[m];
      var r := Register(w.db, RequestOf(x, config), newId, w.now, lost);
      Put(w.(db := r.db), m, if answered then AfterRegister(x, r.reply) else x)
    case LosesBackend(m) => Put(w, m, w.machines[m].(connected := false))
    case Polls(m, lost, files, again, answered) =>
      var x := w.machines[m];
      var r := GetConfig(w.db, x.host, x.node.saved, w.now, lost, files, again);
      Put(w.(db := r.db), m, if answered then AfterPoll(x, r.reply, RulesFor(w.db, x.host)) else x)
    case Writes(m, ok) => Put(w, m, AfterWrite(w.machines[m], ok))
    case Reloads(m, ok) =>
      var x := w.machines[m];
      Put(if ok then w.(loads := w.loads + {LoadOf(x)}) else w, m, AfterReload(x, ok))
    case Saves(m, fate) => Put(w, m, AfterSave(w.machines[m], fate))
    case SendsAck(m) =>
      var x := w.machines[m];
      Put(w.(acks := w.acks + multiset{Report(x)}), m, x.(phase := Idle))
    case AckArrives(ack) => w.(db := Ack(w.db, ack.host, ack.hash, ack.ok, w.now).db, acks := w.acks - multiset{ack})
    case AckLost(ack) => w.(acks := w.acks - multiset{ack})
    case SendsStats(m, lost) => w.(db := Stats(w.db, w.machines[m].host, w.now, lost).db)
    case Restarts(m) => Put(w, m, w.machines[m].(phase := Idle, connected := false, proxyId := None))
    case TimePasses(d) => w.(now := w.now + d)
    case StatusCheck => w.(db := MarkOfflineStale(w.db, w.now), lastCheck := w.now)
    case Cleanup => w.(db := DeleteOfflineStale(w.db, w.now))
  }

  // ---- The invariant ----

  // Contacts are in the past, and the last check has dealt with those it found too old.
  ghost predicate RowClock(p: Proxy, now: nat, lastCheck: nat) {
    && (p.lastSeen.Some? ==> p.lastSeen.value <= now)
    && (p.online ==> p.lastSeen.Some? && lastCheck <= p.lastSeen.value + OfflineAfter)
    && (!p.online ==> p.lastSeen.None? || SilentFor(p, now, OfflineAfter))
  }

  ghost predicate Clock(db: Db, now: nat, lastCheck: nat) {
    && lastCheck <= now <= lastCheck + CheckInterval
    && forall p :: p in db.proxies ==> RowClock(db.proxies[p], now, lastCheck)
  }

  // The hash and the files are each a generation of the same valid rules.
  ghost predicate Genuine(h: Hash, f: Files, rules: RuleSet) {
    Valid(rules) && IsGeneration(rules, f) && exists g :: IsGeneration(rules, g) && h == HashOf(g)
  }

  ghost predicate Confirmed(loads: set<Load>, host: string, h: Hash) {
    exists l :: l in loads && l.host == host && l.hash == h
  }

  predicate Reached(disk: Files, f: Files, k: nat) {
    && (k >= 1 ==> disk.parent == f.parent) && (k >= 2 ==> disk.sni == f.sni) && (k >= 3 ==> disk.allow == f.allow)
  }

  ghost predicate PhaseOk(x: Machine, loads: set<Load>) {
    match x.phase
    case Idle => true
    case Writing(h, f, rules, k) => Genuine(h, f, rules) && Reached(x.node.disk, f, k) && (k >= 1 ==> !x.clean)
    case Reloaded(h, f, rules) => Load(x.host, h, f, rules) in loads && x.node.disk == f && x.node.loaded == f && !x.clean
    case Saved(h) => Confirmed(loads, x.host, h)
    case Failed(_) => true
  }

  // A clean machine has loaded what it has on disk, and its hash file names just that.
  ghost predicate CleanOk(x: Machine, loads: set<Load>) {
    x.clean && x.node.saved != NoHash ==>
      x.node.loaded == x.node.disk && exists l :: l in loads && l.host == x.host && l.hash == x.node.saved && l.files == x.node.disk
  }

  ghost predicate MachineOk(x: Machine, loads: set<Load>) {
    PhaseOk(x, loads) && CleanOk(x, loads) && (x.connected ==> x.proxyId.Some?)
  }

  ghost predicate RowsOk(db: Db, loads: set<Load>) {
    forall p :: p in db.proxies && db.proxies[p].hash != NoHash ==> Confirmed(loads, db.proxies[p].hostname, db.proxies[p].hash)
  }

  ghost predicate LoadsOk(loads: set<Load>) { forall l :: l in loads ==> Genuine(l.hash, l.files, l.rules) }

  ghost predicate AcksOk(acks: multiset<AckInFlight>, loads: set<Load>) {
    forall a :: a in acks && a.ok ==> Confirmed(loads, a.host, a.hash)
  }

  ghost predicate MachinesOk(machines: map<nat, Machine>, loads: set<Load>) {
    forall m :: m in machines ==> MachineOk(machines[m], loads)
  }

  ghost predicate History(w: World) {
    LoadsOk(w.loads) && AcksOk(w.acks, w.loads) && MachinesOk(w.machines, w.loads) && RowsOk(w.db, w.loads)
  }

  ghost predicate WorldInv(w: World) {
    Inv(w.db) && Clock(w.db, w.now, w.lastCheck) && History(w)
  }

  // ---- Database part ----

  lemma ServiceRows(db: Db, e: Event)
    requires ServiceCall(e)
    ensures forall p :: p in Apply(db, e).proxies ==> p in db.proxies && Apply(db, e).proxies[p] == db.proxies[p]
  {
    match e
    case Created(id, req, user) =>
    case Updated(id, req) =>
    case Cloned(src, id, user, rules) =>
    case Submitted(id, user) =>
    case ApprovedBy(id, user, now, files) =>
    case ApproveDied(id, user) =>
    case Rejected(id) =>
    case Deleted(id) =>
    case Assigned(p, c) =>
    case AssignDied(p, c) =>
    case ProxyDeleted(p) =>
  }

  predicate FromProxy(s: Step) { s.Registers? || s.Polls? || s.AckArrives? || s.SendsStats? }

  lemma ProxyStepIsRun(w: World, s: Step) returns (es: seq<Event>)
    requires Inv(w.db) && Enabled(w, s) && FromProxy(s)
    ensures AllAdmissible(w.db, es) && ApplyAll(w.db, es) == Next(w, s).db
  {
    match s
    case Registers(m, config, newId, lost, answered) =>
      es := RegisterIsRun(w.db, RequestOf(w.machines[m], config), newId, w.now, lost);
    case Polls(m, lost, files, again, answered) =>
      es := GetConfigIsRun(w.db, w.machines[m].host, w.machines[m].node.saved, w.now, lost, files, again);
    case AckArrives(ack) => es := AckIsRun(w.db, ack.host, ack.hash, ack.ok, w.now);
    case SendsStats(m, lost) => es := StatsIsRun(w.db, w.machines[m].host, w.now, lost);
  }

  function TableEvent(w: World, s: Step): Event
    requires s.Call? || s.StatusCheck? || s.Cleanup?
  {
    if s.Call? then s.e else if s.StatusCheck? then StaleMarked(w.now) else StaleRemoved(w.now)
  }

  lemma TableStepIsEvent(w: World, s: Step)
    requires Enabled(w, s) && (s.Call? || s.StatusCheck? || s.Cleanup?)
    ensures Admissible(w.db, TableEvent(w, s)) && Next(w, s).db == Apply(w.db, TableEvent(w, s))
  {
  }

  // The tables change by admissible events only, so all that holds of their runs holds here.
  lemma StepIsRun(w: World, s: Step) returns (es: seq<Event>)
    requires Inv(w.db) && Enabled(w, s)
    ensures AllAdmissible(w.db, es) && ApplyAll(w.db, es) == Next(w, s).db
  {
    es := [];
    if FromProxy(s) {
      es := ProxyStepIsRun(w, s);
    } else if s.Call? || s.StatusCheck? || s.Cleanup? {
      TableStepIsEvent(w, s);
      OneEvent(w.db, TableEvent(w, s));
      es := [TableEvent(w, s)];
    } else {
      assert Next(w, s).db == w.db;
    }
  }

  // A poll changes the tables as a mere sign of life does.
  lemma PollTouches(w: World, s: Step)
    requires Inv(w.db) && Enabled(w, s) && s.Polls?
    ensures Next(w, s).db == Stats(w.db, w.machines[s.m].host, w.now, s.lost).db
  {
    var es := GetConfigIsRun(w.db, w.machines[s.m].host, w.machines[s.m].node.saved, w.now, s.lost, s.files, s.again);
  }

  // ---- Time ----

  lemma RowStays(p: Proxy, now: nat, lastCheck: nat, later: nat)
    requires RowClock(p, now, lastCheck) && now <= later
    ensures RowClock(p, later, lastCheck)
  {
  }

  lemma TouchedClock(p: Proxy, now: nat, lastCheck: nat, lost: bool)
    requires RowClock(p, now, lastCheck) && lastCheck <= now
    ensures RowClock(Touched(p, now, lost), now, lastCheck)
  {
  }

  lemma SetProxyClock(db: Db, id: Id, p: Proxy, now: nat, lastCheck: nat)
    requires Clock(db, now, lastCheck) && RowClock(p, now, lastCheck)
    ensures Clock(SetProxy(db, id, p), now, lastCheck)
  {
  }

  lemma StatsClock(db: Db, host: string, now: nat, lastCheck: nat, lost: bool)
    requires Clock(db, now, lastCheck)
    ensures Clock(Stats(db, host, now, lost).db, now, lastCheck)
  {
    var id := ByHostname(db, host);
    if id.Some? {
      TouchedClock(db.proxies[id.value], now, lastCheck, lost);
      SetProxyClock(db, id.value, Touched(db.proxies[id.value], now, lost), now, lastCheck);
    }
  }

  lemma AckClock(db: Db, host: string, h: Hash, ok: bool, now: nat, lastCheck: nat)
    requires Clock(db, now, lastCheck)
    ensures Clock(Ack(db, host, h, ok, now).db, now, lastCheck)
  {
    var id := ByHostname(db, host);
    if id.Some? && ok {
      SetProxyClock(db, id.value, Contact(db.proxies[id.value], now).(hash := h), now, lastCheck);
    }
  }

  lemma RegisterClock(db: Db, req: RegisterRequest, newId: Id, now: nat, lastCheck: nat, lost: Lost)
    requires Clock(db, now, lastCheck)
    ensures Clock(Register(db, req, newId, now, lost).db, now, lastCheck)
  {
    if Register(db, req, newId, now, lost).reply.Registered? {
      match ByHostname(db, req.host)
      case Some(id) =>
        SetProxyClock(db, id, Reregistered(db.proxies[id], req.ip, now, lost), now, lastCheck);
      case None =>
        SetProxyClock(db, newId, NewRow(req, now, lost), now, lastCheck);
    }
  }

  lemma CheckClock(db: Db, now: nat, lastCheck: nat)
    requires Clock(db, now, lastCheck)
    ensures Clock(MarkOfflineStale(db, now), now, now)
  {
    forall p | p in db.proxies ensures RowClock(MarkOfflineStale(db, now).proxies[p], now, now) {
      assert RowClock(db.proxies[p], now, lastCheck);
    }
  }

  lemma ClockStep(w: World, s: Step)
    requires Inv(w.db) && Clock(w.db, w.now, w.lastCheck) && Enabled(w, s)
    ensures Clock(Next(w, s).db, Next(w, s).now, Next(w, s).lastCheck)
  {
    match s
    case Call(e) => ServiceRows(w.db, e);
    case Registers(m, config, newId, lost, answered) =>
      RegisterClock(w.db, RequestOf(w.machines[m], config), newId, w.now, w.lastCheck, lost);
    case Polls(m, lost, files, again, answered) =>
      PollTouches(w, s);
      StatsClock(w.db, w.machines[m].host, w.now, w.lastCheck, lost);
    case AckArrives(ack) => AckClock(w.db, ack.host, ack.hash, ack.ok, w.now, w.lastCheck);
    case SendsStats(m, lost) => StatsClock(w.db, w.machines[m].host, w.now, w.lastCheck, lost);
    case TimePasses(d) => TickClock(w.db, w.now, w.lastCheck, w.now + d);
    case StatusCheck => CheckClock(w.db, w.now, w.lastCheck);
    case Cleanup =>
    case _ =>
  }

  lemma TickClock(db: Db, now: nat, lastCheck: nat, later: nat)
    requires Clock(db, now, lastCheck) && now <= later <= lastCheck + CheckInterval
    ensures Clock(db, later, lastCheck)
  {
    forall p | p in db.proxies ensures RowClock(db.proxies[p], later, lastCheck) {
      RowStays(db.proxies[p], now, lastCheck, later);
    }
  }

  // ---- History ----

  lemma MachineMonotone(x: Machine, loads: set<Load>, more: set<Load>)
    requires MachineOk(x, loads) && loads <= more
    ensures MachineOk(x, more)
  {
  }

  // One machine moves, the log may grow.
  lemma PutKeeps(w: World, m: nat, x: Machine, more: set<Load>)
    requires History(w) && w.loads <= more && LoadsOk(more) && MachineOk(x, more)
    ensures History(Put(w.(loads := more), m, x))
  {
    forall k | k in w.machines ensures MachineOk(w.machines[k], more) { MachineMonotone(w.machines[k], w.loads, more); }
    forall p | p in w.db.proxies && w.db.proxies[p].hash != NoHash
      ensures Confirmed(more, w.db.proxies[p].hostname, w.db.proxies[p].hash)
    {
      assert Confirmed(w.loads, w.db.proxies[p].hostname, w.db.proxies[p].hash);
    }
    forall a | a in w.acks && a.ok ensures Confirmed(more, a.host, a.hash) { assert Confirmed(w.loads, a.host, a.hash); }
  }

  lemma MoveKeeps(w: World, m: nat, x: Machine)
    requires History(w) && MachineOk(x, w.loads)
    ensures History(Put(w, m, x))
  {
    PutKeeps(w, m, x, w.loads);
    assert w.(loads := w.loads) == w;
  }

  lemma RowsKeep(w: World, db: Db)
    requires History(w) && RowsOk(db, w.loads)
    ensures History(w.(db := db))
  {
  }

  lemma SetRowKeeps(db: Db, id: Id, p: Proxy, loads: set<Load>)
    requires RowsOk(db, loads) && (p.hash != NoHash ==> Confirmed(loads, p.hostname, p.hash))
    ensures RowsOk(SetProxy(db, id, p), loads)
  {
  }

  // What the backend sends: a hash and files of the same valid rules.
  lemma ReplyIsGenuine(w: World, s: Step)
    requires Inv(w.db) && Enabled(w, s) && s.Polls?
    ensures var x := w.machines[s.m];
            var reply := GetConfig(w.db, x.host, x.node.saved, w.now, s.lost, s.files, s.again).reply;
            reply.Changed? ==> Genuine(reply.hash, reply.files, RulesFor(w.db, x.host))
  {
    var x := w.machines[s.m];
    var c := ActiveFor(w.db, x.host);
    if c.Some? && ByHostname(w.db, x.host).Some? {
      ActiveHasHash(w.db, x.host, c.value);
      GoodRules(w.db, c.value);
      StoredHashReply(w.db, x.host, x.node.saved, w.now, s.lost, s.files, s.again, c.value);
    }
  }

  lemma GenuineIsComplete(h: Hash, f: Files, rules: RuleSet)
    requires Genuine(h, f, rules)
    ensures Complete(f)
  {
    FilesNotEmpty(rules, f);
  }

  lemma WriteReaches(disk: Files, f: Files, k: nat)
    requires Complete(f) && Reached(disk, f, k) && k < 3
    ensures Reached(Written(disk, f, k), f, k + 1)
  {
  }

  lemma WriteKeeps(x: Machine, ok: bool, loads: set<Load>)
    requires MachineOk(x, loads) && x.phase.Writing? && x.phase.k < 3
    ensures MachineOk(AfterWrite(x, ok), loads)
  {
    var y := AfterWrite(x, ok);
    if ok {
      GenuineIsComplete(x.phase.hash, x.phase.files, x.phase.rules);
      WriteReaches(x.node.disk, x.phase.files, x.phase.k);
      assert PhaseOk(y, loads);
    }
  }

  lemma ReloadKeeps(x: Machine, ok: bool, loads: set<Load>)
    requires MachineOk(x, loads) && x.phase.Writing? && x.phase.k >= 3
    ensures ok ==> MachineOk(AfterReload(x, ok), loads + {LoadOf(x)})
    ensures !ok ==> MachineOk(AfterReload(x, ok), loads)
  {
  }

  lemma SaveKeeps(x: Machine, fate: SaveFate, loads: set<Load>)
    requires MachineOk(x, loads) && x.phase.Reloaded?
    ensures MachineOk(AfterSave(x, fate), loads)
  {
  }

  lemma RegisterRows(w: World, s: Step)
    requires RowsOk(w.db, w.loads) && Enabled(w, s) && s.Registers?
    ensures RowsOk(Next(w, s).db, w.loads)
  {
    var req := RequestOf(w.machines[s.m], s.config);
    if Register(w.db, req, s.newId, w.now, s.losses).reply.Registered? {
      match ByHostname(w.db, req.host)
      case Some(id) => SetRowKeeps(w.db, id, Reregistered(w.db.proxies[id], req.ip, w.now, s.losses), w.loads);
      case None => SetRowKeeps(w.db, s.newId, NewRow(req, w.now, s.losses), w.loads);
    }
  }

  lemma StatsRows(db: Db, host: string, now: nat, lost: bool, loads: set<Load>)
    requires RowsOk(db, loads)
    ensures RowsOk(Stats(db, host, now, lost).db, loads)
  {
    var id := ByHostname(db, host);
    if id.Some? { SetRowKeeps(db, id.value, Touched(db.proxies[id.value], now, lost), loads); }
  }

  lemma AckRows(db: Db, host: string, h: Hash, ok: bool, now: nat, loads: set<Load>)
    requires RowsOk(db, loads) && (ok ==> Confirmed(loads, host, h))
    ensures RowsOk(Ack(db, host, h, ok, now).db, loads)
  {
    var id := ByHostname(db, host);
    if id.Some? && ok { SetRowKeeps(db, id.value, Contact(db.proxies[id.value], now).(hash := h), loads); }
  }

  // ---- Every step keeps the invariant ----

  lemma MachineStep(w: World, s: Step)
    requires History(w) && Enabled(w, s) && (s.LosesBackend? || s.Writes? || s.Saves? || s.Restarts?)
    ensures History(Next(w, s))
  {
    assert MachineOk(w.machines[s.m], w.loads);
    match s
    case LosesBackend(m) => MoveKeeps(w, m, w.machines[m].(connected := false));
    case Writes(m, ok) =>
      WriteKeeps(w.machines[m], ok, w.loads);
      MoveKeeps(w, m, AfterWrite(w.machines[m], ok));
    case Saves(m, fate) =>
      SaveKeeps(w.machines[m], fate, w.loads);
      MoveKeeps(w, m, AfterSave(w.machines[m], fate));
    case Restarts(m) => MoveKeeps(w, m, w.machines[m].(phase := Idle, connected := false, proxyId := None));
  }

  lemma LogKeeps(w: World, m: nat, x: Machine, l: Load)
    requires History(w) && Genuine(l.hash, l.files, l.rules) && MachineOk(x, w.loads + {l})
    ensures History(Put(w.(loads := w.loads + {l}), m, x))
  {
    assert LoadsOk(w.loads + {l}) by { OneMoreLoad(w.loads, l); }
    PutKeeps(w, m, x, w.loads + {l});
  }

  lemma OneMoreLoad(loads: set<Load>, l: Load)
    requires LoadsOk(loads) && Genuine(l.hash, l.files, l.rules)
    ensures LoadsOk(loads + {l})
  {
  }

  lemma ReloadStep(w: World, s: Step)
    requires History(w) && Enabled(w, s) && s.Reloads?
    ensures History(Next(w, s))
  {
    var x := w.machines[s.m];
    assert MachineOk(x, w.loads);
    ReloadKeeps(x, s.ok, w.loads);
    if s.ok {
      LogKeeps(w, s.m, AfterReload(x, true), LoadOf(x));
    } else {
      MoveKeeps(w, s.m, AfterReload(x, false));
    }
  }

  lemma AckKeeps(w: World, a: AckInFlight)
    requires History(w) && (a.ok ==> Confirmed(w.loads, a.host, a.hash))
    ensures History(w.(acks := w.acks + multiset{a}))
  {
  }

  lemma SendStep(w: World, s: Step)
    requires History(w) && Enabled(w, s) && s.SendsAck?
    ensures History(Next(w, s))
  {
    var x := w.machines[s.m];
    assert MachineOk(x, w.loads);
    var a := Report(x);
    AckKeeps(w, a);
    MoveKeeps(w.(acks := w.acks + multiset{a}), s.m, x.(phase := Idle));
  }

  lemma RegisterStep(w: World, s: Step)
    requires History(w) && Enabled(w, s) && s.Registers?
    ensures History(Next(w, s))
  {
    var x := w.machines[s.m];
    assert MachineOk(x, w.loads);
    RegisterRows(w, s);
    RowsKeep(w, Next(w, s).db);
    var reply := Register(w.db, RequestOf(x, s.config), s.newId, w.now, s.losses).reply;
    MoveKeeps(w.(db := Next(w, s).db), s.m, if s.answered then AfterRegister(x, reply) else x);
  }

  lemma PollStep(w: World, s: Step)
    requires WorldInv(w) && Enabled(w, s) && s.Polls?
    ensures History(Next(w, s))
  {
    var x := w.machines[s.m];
    assert MachineOk(x, w.loads);
    PollTouches(w, s);
    StatsRows(w.db, x.host, w.now, s.lost, w.loads);
    RowsKeep(w, Next(w, s).db);
    ReplyIsGenuine(w, s);
    var reply := GetConfig(w.db, x.host, x.node.saved, w.now, s.lost, s.files, s.again).reply;
    var y := if s.answered then AfterPoll(x, reply, RulesFor(w.db, x.host)) else x;
    PollMachine(x, reply, RulesFor(w.db, x.host), w.loads);
    MoveKeeps(w.(db := Next(w, s).db), s.m, y);
  }

  lemma PollMachine(x: Machine, reply: ConfigReply, rules: RuleSet, loads: set<Load>)
    requires MachineOk(x, loads) && x.phase.Idle? && (reply.Changed? ==> Genuine(reply.hash, reply.files, rules))
    ensures MachineOk(AfterPoll(x, reply, rules), loads)
  {
  }

  predicate OnTables(s: Step) {
    s.Call? || s.AckArrives? || s.AckLost? || s.SendsStats? || s.TimePasses? || s.StatusCheck? || s.Cleanup?
  }

  lemma TableRows(w: World, s: Step)
    requires History(w) && Enabled(w, s) && OnTables(s)
    ensures RowsOk(Next(w, s).db, w.loads)
  {
    if s.Call? {
      ServiceRows(w.db, s.e);
    } else if s.AckArrives? {
      AckRows(w.db, s.ack.host, s.ack.hash, s.ack.ok, w.now, w.loads);
    } else if s.SendsStats? {
      StatsRows(w.db, w.machines[s.m].host, w.now, s.lost, w.loads);
    }
  }

  lemma TableStep(w: World, s: Step)
    requires History(w) && Enabled(w, s) && OnTables(s)
    ensures History(Next(w, s))
  {
    TableRows(w, s);
    var n := Next(w, s);
    assert n.acks <= w.acks && n.loads == w.loads && n.machines == w.machines;
  }

  lemma HistoryStep(w: World, s: Step)
    requires WorldInv(w) && Enabled(w, s)
    ensures History(Next(w, s))
  {
    if OnTables(s) {
      TableStep(w, s);
    } else if s.Registers? {
      RegisterStep(w, s);
    } else if s.Polls? {
      PollStep(w, s);
    } else if s.Reloads? {
      ReloadStep(w, s);
    } else if s.SendsAck? {
      SendStep(w, s);
    } else {
      MachineStep(w, s);
    }
  }

  lemma StepKeepsWorld(w: World, s: Step)
    requires WorldInv(w) && Enabled(w, s)
    ensures WorldInv(Next(w, s))
  {
    var es := StepIsRun(w, s);
    RunKeepsInv(w.db, es);
    ClockStep(w, s);
    HistoryStep(w, s);
  }

  // ---- Runs ----

  ghost predicate Start(w: World) {
    && w.db == EmptyDb() && w.now == w.lastCheck && w.acks == multiset{} && w.loads == {}
    && forall m :: m in w.machines ==>
         w.machines[m].phase.Idle? && !w.machines[m].connected && (w.machines[m].clean ==> w.machines[m].node.saved == NoHash)
  }

  ghost predicate IsRun(w: World, ss: seq<Step>)
    decreases |ss|
  {
    ss == [] || (Enabled(w, ss[0]) && IsRun(Next(w, ss[0]), ss[1..]))
  }

  ghost function After(w: World, ss: seq<Step>): World
    requires IsRun(w, ss)
    decreases |ss|
  {
    if ss == [] then w else After(Next(w, ss[0]), ss[1..])
  }

  lemma {:induction false} RunKeepsWorld(w: World, ss: seq<Step>)
    requires WorldInv(w) && IsRun(w, ss)
    ensures WorldInv(After(w, ss))
    decreases |ss|
  {
    if ss != [] {
      StepKeepsWorld(w, ss[0]);
      RunKeepsWorld(Next(w, ss[0]), ss[1..]);
    }
  }

  lemma StartInv(w: World)
    requires Start(w)
    ensures WorldInv(w)
  {
    EmptyInv();
  }

  ghost predicate Reachable(w: World) {
    exists start, ss :: Start(start) && IsRun(start, ss) && After(start, ss) == w
  }

  // Everything reachable meets the invariant.
  lemma ReachableInv(w: World)
    requires Reachable(w)
    ensures WorldInv(w)
  {
    var start, ss :| Start(start) && IsRun(start, ss) && After(start, ss) == w;
    StartInv(start);
    RunKeepsWorld(start, ss);
  }
}
