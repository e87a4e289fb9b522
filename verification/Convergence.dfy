/**
Every sync ends well: whatever other machines, calls, jobs and the network do meanwhile,
a machine that is not interrupted ends as doSync says, and converges exactly when it can.
*/
module Convergence {
  import opened Text
  import opened Rules
  import opened ConfigFiles
  import opened Ties
  import opened Store
  import opened Lifecycle
  import opened Sync
  import opened Helper
  import opened Protocol
  import opened ProtocolFacts

  // ---- One machine among all steps ----

  predicate OfMachine(s: Step, m: nat) {
    (s.Registers? || s.LosesBackend? || s.Polls? || s.Writes? || s.Reloads? || s.Saves? || s.SendsAck? || s.SendsStats? || s.Restarts?)
    && s.m == m
  }

  // What a step does to machine m, besides a poll.
  ghost predicate Advance(x: Machine, y: Machine, s: Step, m: nat) {
    if !OfMachine(s, m) then y == x
    else match s
      case Writes(_, ok) => x.phase.Writing? && x.phase.k < 3 && y == AfterWrite(x, ok)
      case Reloads(_, ok) => x.phase.Writing? && x.phase.k >= 3 && y == AfterReload(x, ok)
      case Saves(_, fate) => x.phase.Reloaded? && y == AfterSave(x, fate)
      case SendsAck(_) => Reporting(x.phase) && y == x.(phase := Idle)
      case Polls(_, _, _, _, _) => x.phase.Idle?
      case Restarts(_) => y == x.(phase := Idle, connected := false, proxyId := None)
      case _ => y == x.(connected := y.connected, proxyId := y.proxyId)
  }

  lemma StepAdvances(w: World, s: Step, m: nat)
    requires Enabled(w, s) && m in w.machines
    ensures m in Next(w, s).machines && Advance(w.machines[m], Next(w, s).machines[m], s, m)
  {
  }

  predicate Reporting(p: Phase) { p.Saved? || p.Failed? }

  function Message(p: Phase): AckMessage
    requires Reporting(p)
  {
    AckMessage(p.hash, p.Saved?)
  }

  // What machine m reports along a run, in order.
  function Sends(w: World, s: Step, m: nat): seq<AckMessage> {
    if s == SendsAck(m) && m in w.machines && Reporting(w.machines[m].phase) then [Message(w.machines[m].phase)] else []
  }

  ghost function SentBy(w: World, ss: seq<Step>, m: nat): seq<AckMessage>
    requires IsRun(w, ss)
    decreases |ss|
  {
    if ss == [] then [] else Sends(w, ss[0], m) + SentBy(Next(w, ss[0]), ss[1..], m)
  }

  // ---- The stages of a sync ----

  function Messages(ack: Option<AckMessage>): seq<AckMessage> { if ack.Some? then [ack.value] else [] }

  ghost predicate EndsBy(n: Node, reply: ConfigReply, fate: Fate, x: Machine, sent: seq<AckMessage>) {
    x.node == AfterSync(n, reply, fate) && sent == Messages(AckOf(reply, fate))
  }

  predicate Succeeds(fate: Fate, clean: bool) { fate.failAt >= 3 && fate.reloads && (clean ==> fate.save == SaveDone) }

  // Where a machine that had the node n can stand after that reply, and what it has sent
  // since; clean: without a fault.
  ghost predicate Stage(n: Node, reply: ConfigReply, clean: bool, x: Machine, sent: seq<AckMessage>) {
    match reply
    case UnknownHost => x.phase.Idle? && x.node == n && sent == []
    case Unchanged => x.phase.Idle? && x.node == n && sent == []
    case Changed(h, f) =>
      Complete(f) &&
      match x.phase
      case Writing(g, e, _, k) => g == h && e == f && k <= 3 && x.node == n.(disk := Mix(n.disk, f, k)) && sent == []
      case Reloaded(g, e, _) => g == h && e == f && x.node == n.(disk := f, loaded := f) && sent == []
      case Saved(g) => g == h && sent == [] && exists fate :: Succeeds(fate, clean) && x.node == AfterSync(n, reply, fate)
      case Failed(g) => !clean && sent == [] && exists fate :: EndsBy(n, reply, fate, x, [AckMessage(g, false)])
      case Idle => exists fate :: (clean ==> NoFault(fate)) && EndsBy(n, reply, fate, x, sent)
  }

  // Steps that break a sync off, and steps that make it fail.
  predicate Interrupts(s: Step, m: nat) { (s.Polls? || s.Restarts?) && s.m == m }

  predicate Faulty(s: Step, m: nat) {
    (s.Writes? && s.m == m && !s.ok) || (s.Reloads? && s.m == m && !s.ok) || (s.Saves? && s.m == m && s.fate != SaveDone)
  }

  lemma WriteStage(n: Node, reply: ConfigReply, clean: bool, x: Machine, ok: bool)
    requires Stage(n, reply, clean, x, []) && x.phase.Writing? && x.phase.k < 3 && (clean ==> ok)
    ensures Stage(n, reply, clean, AfterWrite(x, ok), [])
  {
    var y := AfterWrite(x, ok);
    if ok {
      assert Mix(n.disk, reply.files, x.phase.k + 1) == Written(Mix(n.disk, reply.files, x.phase.k), reply.files, x.phase.k);
    } else {
      assert EndsBy(n, reply, Fate(x.phase.k, true, SaveDone), y, [AckMessage(x.phase.hash, false)]);
    }
  }

  lemma ReloadStage(n: Node, reply: ConfigReply, clean: bool, x: Machine, ok: bool)
    requires Stage(n, reply, clean, x, []) && x.phase.Writing? && x.phase.k >= 3 && (clean ==> ok)
    ensures Stage(n, reply, clean, AfterReload(x, ok), [])
  {
    CompleteApply(n.disk, reply.files);
    if !ok { assert EndsBy(n, reply, Fate(3, false, SaveDone), AfterReload(x, ok), [AckMessage(x.phase.hash, false)]); }
  }

  lemma SaveStage(n: Node, reply: ConfigReply, clean: bool, x: Machine, save: SaveFate)
    requires Stage(n, reply, clean, x, []) && x.phase.Reloaded? && (clean ==> save == SaveDone)
    ensures Stage(n, reply, clean, AfterSave(x, save), [])
  {
    CompleteApply(n.disk, reply.files);
    var fate := Fate(3, true, save);
    assert Succeeds(fate, clean) && AfterSave(x, save).node == AfterSync(n, reply, fate);
  }

  lemma SendStage(n: Node, reply: ConfigReply, clean: bool, x: Machine)
    requires Stage(n, reply, clean, x, []) && Reporting(x.phase)
    ensures Stage(n, reply, clean, x.(phase := Idle), [Message(x.phase)])
  {
    var fate;
    if x.phase.Saved? {
      fate :| Succeeds(fate, clean) && x.node == AfterSync(n, reply, fate);
    } else {
      fate :| EndsBy(n, reply, fate, x, [AckMessage(x.phase.hash, false)]);
    }
    assert EndsBy(n, reply, fate, x.(phase := Idle), [Message(x.phase)]);
  }

  lemma StageCarries(n: Node, reply: ConfigReply, clean: bool, x: Machine, y: Machine, sent: seq<AckMessage>)
    requires Stage(n, reply, clean, x, sent) && y == x.(connected := y.connected, proxyId := y.proxyId)
    ensures Stage(n, reply, clean, y, sent)
  {
    if x.phase.Idle? && reply.Changed? {
      var fate :| (clean ==> NoFault(fate)) && EndsBy(n, reply, fate, x, sent);
      assert EndsBy(n, reply, fate, y, sent);
    } else if x.phase.Failed? {
      var fate :| EndsBy(n, reply, fate, x, [AckMessage(x.phase.hash, false)]);
      assert EndsBy(n, reply, fate, y, [AckMessage(x.phase.hash, false)]);
    }
  }

  lemma BusySentNothing(n: Node, reply: ConfigReply, clean: bool, x: Machine, sent: seq<AckMessage>)
    requires Stage(n, reply, clean, x, sent) && !x.phase.Idle?
    ensures sent == []
  {
  }

  lemma StageStep(n: Node, reply: ConfigReply, clean: bool, x: Machine, y: Machine, s: Step, m: nat, sent: seq<AckMessage>, more: seq<AckMessage>)
    requires Stage(n, reply, clean, x, sent) && Advance(x, y, s, m)
    requires !Interrupts(s, m) && (clean ==> !Faulty(s, m))
    requires more == if s == SendsAck(m) && Reporting(x.phase) then [Message(x.phase)] else []
    ensures Stage(n, reply, clean, y, sent + more)
  {
    if !x.phase.Idle? { BusySentNothing(n, reply, clean, x, sent); }
    assert sent + [] == sent;
    if !OfMachine(s, m) {
    } else if s.Writes? {
      WriteStage(n, reply, clean, x, s.ok);
    } else if s.Reloads? {
      ReloadStage(n, reply, clean, x, s.ok);
    } else if s.Saves? {
      SaveStage(n, reply, clean, x, s.fate);
    } else if s.SendsAck? {
      SendStage(n, reply, clean, x);
      assert sent + more == [Message(x.phase)];
    } else {
      StageCarries(n, reply, clean, x, y, sent);
    }
  }

  ghost predicate Uninterrupted(ss: seq<Step>, m: nat) { forall s :: s in ss ==> !Interrupts(s, m) }
  ghost predicate Faultless(ss: seq<Step>, m: nat) { forall s :: s in ss ==> !Faulty(s, m) }

  lemma StageOn(w: World, s: Step, m: nat, n: Node, reply: ConfigReply, clean: bool, sent: seq<AckMessage>)
    requires m in w.machines && Stage(n, reply, clean, w.machines[m], sent) && Enabled(w, s)
    requires !Interrupts(s, m) && (clean ==> !Faulty(s, m))
    ensures m in Next(w, s).machines && Stage(n, reply, clean, Next(w, s).machines[m], sent + Sends(w, s, m))
  {
    StepAdvances(w, s, m);
    StageStep(n, reply, clean, w.machines[m], Next(w, s).machines[m], s, m, sent, Sends(w, s, m));
  }

  lemma Appends(w: World, ss: seq<Step>, m: nat, sent: seq<AckMessage>)
    requires IsRun(w, ss) && ss != []
    ensures sent + Sends(w, ss[0], m) + SentBy(Next(w, ss[0]), ss[1..], m) == sent + SentBy(w, ss, m)
  {
  }

  lemma {:induction false} StagesLast(w: World, ss: seq<Step>, m: nat, n: Node, reply: ConfigReply, clean: bool, sent: seq<AckMessage>)
    requires m in w.machines && Stage(n, reply, clean, w.machines[m], sent)
    requires IsRun(w, ss) && Uninterrupted(ss, m) && (clean ==> Faultless(ss, m))
    ensures m in After(w, ss).machines && Stage(n, reply, clean, After(w, ss).machines[m], sent + SentBy(w, ss, m))
    decreases |ss|
  {
    if ss == [] {
      assert sent + [] == sent;
    } else {
      var s, v := ss[0], Next(w, ss[0]);
      assert s in ss && forall t :: t in ss[1..] ==> t in ss;
      StageOn(w, s, m, n, reply, clean, sent);
      StagesLast(v, ss[1..], m, n, reply, clean, sent + Sends(w, s, m));
      Appends(w, ss, m, sent);
    }
  }

  // ---- Every sync ----

  lemma ReplyStage(x: Machine, reply: ConfigReply, rules: RuleSet, clean: bool)
    requires x.phase.Idle? && (reply.Changed? ==> Complete(reply.files))
    ensures Stage(x.node, reply, clean, AfterPoll(x, reply, rules), [])
  {
    if reply.Changed? { assert Mix(x.node.disk, reply.files, 0) == x.node.disk; }
  }

  lemma FirstStage(w: World, s: Step, clean: bool)
    requires Inv(w.db) && s.Polls? && s.answered && Enabled(w, s)
    ensures s.m in Next(w, s).machines && Stage(w.machines[s.m].node, ReplyTo(w, s), clean, Next(w, s).machines[s.m], [])
  {
    PollOutcome(w, s);
    ReplyStage(w.machines[s.m], ReplyTo(w, s), RulesFor(w.db, w.machines[s.m].host), clean);
  }

  // Some fate explains what a stage has come to, and what was sent on the way.
  ghost predicate Explained(n: Node, y: Machine, reply: ConfigReply, clean: bool, sent: seq<AckMessage>, fate: Fate) {
    EndsBy(n, reply, fate, y, sent) && (clean ==> NoFault(fate))
  }

  lemma IdleIsExplained(n: Node, y: Machine, reply: ConfigReply, clean: bool, sent: seq<AckMessage>) returns (fate: Fate)
    requires Stage(n, reply, clean, y, sent) && y.phase.Idle?
    ensures Explained(n, y, reply, clean, sent, fate)
  {
    if reply.Changed? {
      fate :| (clean ==> NoFault(fate)) && EndsBy(n, reply, fate, y, sent);
    } else {
      fate := Fate(3, true, SaveDone);
    }
  }

  // The machine m, uninterrupted since its poll s of w, is idle again after ss.
  ghost predicate SyncOver(w: World, s: Step, ss: seq<Step>) {
    && s.Polls? && s.answered && Enabled(w, s) && IsRun(Next(w, s), ss) && Uninterrupted(ss, s.m)
    && s.m in After(Next(w, s), ss).machines && After(Next(w, s), ss).machines[s.m].phase.Idle?
  }

  // However it interleaves with everything else, a sync ends as doSync says, for some
  // fate, and has sent just what doSync sends; without a fault when no step of the machine
  // failed.
  lemma EverySyncEnds(w: World, s: Step, ss: seq<Step>) returns (fate: Fate)
    requires Inv(w.db) && SyncOver(w, s, ss)
    ensures Explained(w.machines[s.m].node, After(Next(w, s), ss).machines[s.m], ReplyTo(w, s), Faultless(ss, s.m),
                      SentBy(Next(w, s), ss, s.m), fate)
  {
    var n, v, clean, sent := w.machines[s.m].node, After(Next(w, s), ss), Faultless(ss, s.m), SentBy(Next(w, s), ss, s.m);
    FirstStage(w, s, clean);
    StagesLast(Next(w, s), ss, s.m, n, ReplyTo(w, s), clean, []);
    assert [] + sent == sent;
    fate := IdleIsExplained(n, v.machines[s.m], ReplyTo(w, s), clean, sent);
  }

  // n before, y after: converged exactly when n could be, and acknowledged once exactly
  // when n was behind.
  ghost predicate ConvergesIff(n: Node, y: Machine, f: Files, sent: seq<AckMessage>) {
    && (Converged(y.node, f) <==> n.saved != HashOf(f) || (n.disk == f && n.loaded == f))
    && sent == if n.saved != HashOf(f) then [AckMessage(HashOf(f), true)] else []
  }

  // A faultless sync against a config with the files f converges the machine if and only
  // if its saved hash was another or it had the files already, in every run; in the first
  // case it sends the acknowledgement, once, and else nothing.
  lemma PollConverges(w: World, s: Step, ss: seq<Step>, c: Id, f: Files)
    requires Inv(w.db) && SyncOver(w, s, ss) && Faultless(ss, s.m) && Serves(w.db, w.machines[s.m].host, c, f)
    ensures ConvergesIff(w.machines[s.m].node, After(Next(w, s), ss).machines[s.m], f, SentBy(Next(w, s), ss, s.m))
  {
    var fate := EverySyncEnds(w, s, ss);
    ServedReply(w, s, c, f);
    ServedComplete(w.db.configs[c].rules, f);
    FateConverges(w.machines[s.m].node, After(Next(w, s), ss).machines[s.m], f, SentBy(Next(w, s), ss, s.m), fate);
  }

  lemma FateConverges(n: Node, y: Machine, f: Files, sent: seq<AckMessage>, fate: Fate)
    requires Explained(n, y, ReplyFor(f, n.saved), true, sent, fate) && Complete(f)
    ensures ConvergesIff(n, y, f, sent)
  {
    PollConvergesIff(n, f, fate);
  }

  // In history: when no file was replaced since the hash file was last written, whatever
  // failed before, every faultless sync converges.
  lemma CleanMachineConverges(w: World, s: Step, ss: seq<Step>, c: Id, f: Files)
    requires Reachable(w) && SyncOver(w, s, ss) && Faultless(ss, s.m) && Serves(w.db, w.machines[s.m].host, c, f)
    requires w.machines[s.m].clean && HarmlessLoads(w, w.machines[s.m].host, w.machines[s.m].node.saved)
    ensures Converged(After(Next(w, s), ss).machines[s.m].node, f)
  {
    ReachableInv(w);
    PollConverges(w, s, ss, c, f);
    var x := w.machines[s.m];
    if x.node.saved == HashOf(f) { CleanHasFiles(w, x, w.db.configs[c], f); }
  }

  lemma CleanHasFiles(w: World, x: Machine, c: Config, f: Files)
    requires CleanOk(x, w.loads) && LoadsOk(w.loads) && x.clean && x.node.saved == HashOf(f)
    requires HarmlessLoads(w, x.host, x.node.saved)
    requires GoodConfig(c) && IsGeneration(c.rules, f)
    ensures x.node.disk == f && x.node.loaded == f
  {
    var l :| l in w.loads && l.host == x.host && l.hash == x.node.saved && l.files == x.node.disk;
    assert Genuine(l.hash, l.files, l.rules);
    SameHashSameFiles(l.hash, l.files, l.rules, c.rules, f);
  }

  // ---- A machine whose hash file names the active files ----

  // Through the whole run the host is served the files f, by one config or another.
  ghost predicate ServedAll(w: World, ss: seq<Step>, host: string, f: Files)
    decreases |ss|
  {
    (exists c :: Serves(w.db, host, c, f)) && (ss == [] || (Enabled(w, ss[0]) && ServedAll(Next(w, ss[0]), ss[1..], host, f)))
  }

  ghost predicate Settled(w: World, m: nat, host: string, n: Node) {
    m in w.machines && w.machines[m].host == host && w.machines[m].node == n && w.machines[m].phase.Idle?
  }

  lemma IdleStays(x: Machine, y: Machine, s: Step, m: nat)
    requires x.phase.Idle? && Advance(x, y, s, m) && !(s.Polls? && s.m == m)
    ensures y.phase.Idle? && y.node == x.node && y.host == x.host && !(s.SendsAck? && s.m == m)
  {
  }

  lemma NamedStep(w: World, s: Step, m: nat, host: string, f: Files, n: Node)
    requires Inv(w.db) && Enabled(w, s) && Settled(w, m, host, n) && n.saved == HashOf(f)
    requires exists c :: Serves(w.db, host, c, f)
    ensures Settled(Next(w, s), m, host, n) && !(s.SendsAck? && s.m == m)
  {
    if s.Polls? && s.m == m {
      var c :| Serves(w.db, host, c, f);
      ServedReply(w, s, c, f);
      UnchangedMovesNothing(w, s);
    } else {
      StepAdvances(w, s, m);
      IdleStays(w.machines[m], Next(w, s).machines[m], s, m);
    }
  }

  // Nothing changes on it any more, whether it has those files or not: it is told
  // Unchanged as long as they are served, through every run.
  lemma {:induction false} NamedMachineStays(w: World, ss: seq<Step>, m: nat, host: string, f: Files, n: Node)
    requires WorldInv(w) && IsRun(w, ss) && Settled(w, m, host, n) && n.saved == HashOf(f) && ServedAll(w, ss, host, f)
    ensures Settled(After(w, ss), m, host, n)
    decreases |ss|
  {
    if ss != [] {
      NamedStep(w, ss[0], m, host, f, n);
      StepKeepsWorld(w, ss[0]);
      NamedMachineStays(Next(w, ss[0]), ss[1..], m, host, f, n);
    }
  }

  // ---- The mail ----

  ghost function Mail(w: World, s: Step): multiset<AckInFlight>
    requires Enabled(w, s)
  {
    if s.SendsAck? then multiset{Report(w.machines[s.m])} else multiset{}
  }

  ghost function AllMail(w: World, ss: seq<Step>): multiset<AckInFlight>
    requires IsRun(w, ss)
    decreases |ss|
  {
    if ss == [] then multiset{} else Mail(w, ss[0]) + AllMail(Next(w, ss[0]), ss[1..])
  }

  // What a run delivers, and what it loses.
  function Delivered(ss: seq<Step>): multiset<AckInFlight>
    decreases |ss|
  {
    if ss == [] then multiset{} else (if ss[0].AckArrives? then multiset{ss[0].ack} else multiset{}) + Delivered(ss[1..])
  }

  function Dropped(ss: seq<Step>): multiset<AckInFlight>
    decreases |ss|
  {
    if ss == [] then multiset{} else (if ss[0].AckLost? then multiset{ss[0].ack} else multiset{}) + Dropped(ss[1..])
  }

  lemma MailStep(w: World, s: Step, a: AckInFlight)
    requires Enabled(w, s)
    ensures w.acks[a] + Mail(w, s)[a] == Next(w, s).acks[a] + (if (s.AckArrives? || s.AckLost?) && s.ack == a then 1 else 0)
  {
  }

  // Every acknowledgement that is sent arrives, gets lost or is on its way: one of these,
  // and once.
  lemma {:induction false} MailIsAccounted(w: World, ss: seq<Step>, a: AckInFlight)
    requires IsRun(w, ss)
    ensures w.acks[a] + AllMail(w, ss)[a] == After(w, ss).acks[a] + Delivered(ss)[a] + Dropped(ss)[a]
    decreases |ss|
  {
    if ss != [] {
      MailStep(w, ss[0], a);
      MailIsAccounted(Next(w, ss[0]), ss[1..], a);
    }
  }

  // ---- A lost acknowledgement ----

  // m is the only machine of that host.
  ghost predicate Sole(w: World, m: nat, host: string) {
    forall k :: k in w.machines && w.machines[k].host == host ==> k == m
  }

  ghost predicate NoneFor(acks: multiset<AckInFlight>, host: string) { forall a: AckInFlight :: a.host == host ==> acks[a] == 0 }

  lemma HostStays(x: Machine, y: Machine, s: Step, m: nat)
    requires Advance(x, y, s, m) && !(s.Polls? && s.m == m)
    ensures y.host == x.host
  {
  }

  lemma HostsStay(w: World, s: Step, k: nat)
    requires Enabled(w, s) && k in w.machines
    ensures k in Next(w, s).machines && Next(w, s).machines[k].host == w.machines[k].host
  {
    StepAdvances(w, s, k);
    if !(s.Polls? && s.m == k) { HostStays(w.machines[k], Next(w, s).machines[k], s, k); }
  }

  lemma SameMachines(w: World, s: Step)
    requires Enabled(w, s)
    ensures Next(w, s).machines.Keys == w.machines.Keys
  {
  }

  lemma {:induction false} MachinesStay(w: World, ss: seq<Step>)
    requires IsRun(w, ss)
    ensures After(w, ss).machines.Keys == w.machines.Keys
    decreases |ss|
  {
    if ss != [] {
      SameMachines(w, ss[0]);
      MachinesStay(Next(w, ss[0]), ss[1..]);
    }
  }

  lemma SoleStep(w: World, s: Step, m: nat, host: string)
    requires Enabled(w, s) && Sole(w, m, host)
    ensures Sole(Next(w, s), m, host)
  {
    SameMachines(w, s);
    forall k | k in Next(w, s).machines && Next(w, s).machines[k].host == host ensures k == m {
      assert k in w.machines.Keys;
      HostsStay(w, s, k);
    }
  }

  // Row p belongs to that host, with that hash.
  ghost predicate Recorded(db: Db, host: string, p: Id, h: Hash) {
    p in db.proxies && db.proxies[p].hostname == host && db.proxies[p].hash == h
  }

  lemma TouchKeepsRow(db: Db, host: string, p: Id, h: Hash, id: Id, row: Proxy)
    requires Recorded(db, host, p, h)
    requires if id in db.proxies then row.hostname == db.proxies[id].hostname && row.hash == db.proxies[id].hash else row.hostname != host
    ensures Recorded(SetProxy(db, id, row), host, p, h)
  {
  }

  lemma RegisterKeepsRow(db: Db, req: RegisterRequest, newId: Id, now: nat, lost: Lost, host: string, p: Id, h: Hash)
    requires Recorded(db, host, p, h) && newId !in db.proxies
    ensures Recorded(Register(db, req, newId, now, lost).db, host, p, h)
  {
    if Register(db, req, newId, now, lost).reply.Registered? {
      match ByHostname(db, req.host)
      case Some(id) => TouchKeepsRow(db, host, p, h, id, Reregistered(db.proxies[id], req.ip, now, lost));
      case None =>
        assert Named(db, p, host);
        TouchKeepsRow(db, host, p, h, newId, NewRow(req, now, lost));
    }
  }

  lemma StatsKeepsRow(db: Db, at: string, now: nat, lost: bool, host: string, p: Id, h: Hash)
    requires Recorded(db, host, p, h)
    ensures Recorded(Stats(db, at, now, lost).db, host, p, h)
  {
    var id := ByHostname(db, at);
    if id.Some? { TouchKeepsRow(db, host, p, h, id.value, Touched(db.proxies[id.value], now, lost)); }
  }

  // A report of success sets the hash of the row of its host, and of no other.
  lemma AckSetsRow(db: Db, at: string, g: Hash, ok: bool, now: nat, host: string, p: Id, h: Hash)
    requires Integrity(db) && Recorded(db, host, p, h)
    ensures Recorded(Ack(db, at, g, ok, now).db, host, p, if at == host && ok then g else h)
  {
    assert Named(db, p, host);
  }

  lemma JobsKeepRow(db: Db, now: nat, host: string, p: Id, h: Hash)
    requires Recorded(db, host, p, h)
    ensures Recorded(MarkOfflineStale(db, now), host, p, h)
    ensures p in DeleteOfflineStale(db, now).proxies ==> Recorded(DeleteOfflineStale(db, now), host, p, h)
  {
  }

  predicate ArrivesFor(s: Step, host: string) { s.AckArrives? && s.ack.host == host && s.ack.ok }

  // A row takes the hash of each report of success that arrives for its host, and keeps it
  // through all other steps, or goes.
  lemma RowHash(w: World, s: Step, host: string, p: Id, h: Hash)
    requires Inv(w.db) && Enabled(w, s) && Recorded(w.db, host, p, h) && p in Next(w, s).db.proxies
    ensures Recorded(Next(w, s).db, host, p, if ArrivesFor(s, host) then s.ack.hash else h)
  {
    if s.Call? {
      ServiceRows(w.db, s.e);
    } else if s.Registers? {
      RegisterKeepsRow(w.db, RequestOf(w.machines[s.m], s.config), s.newId, w.now, s.losses, host, p, h);
    } else if s.Polls? {
      PollTouches(w, s);
      StatsKeepsRow(w.db, w.machines[s.m].host, w.now, s.lost, host, p, h);
    } else if s.SendsStats? {
      StatsKeepsRow(w.db, w.machines[s.m].host, w.now, s.lost, host, p, h);
    } else if s.AckArrives? {
      AckSetsRow(w.db, s.ack.host, s.ack.hash, s.ack.ok, w.now, host, p, h);
    } else {
      JobsKeepRow(w.db, w.now, host, p, h);
    }
  }

  lemma RegisterOrigin(db: Db, req: RegisterRequest, newId: Id, now: nat, lost: Lost, q: Id)
    requires q in Register(db, req, newId, now, lost).db.proxies
    ensures if q in db.proxies then newId in db.proxies || Register(db, req, newId, now, lost).db.proxies[q].hostname == db.proxies[q].hostname
            else ByHostname(db, req.host).None? && Register(db, req, newId, now, lost).db.proxies[q].hostname == req.host
  {
  }

  // A row with a hostname was there before, unless the hostname was not.
  ghost predicate Origin(db: Db, after: Db, q: Id)
    requires q in after.proxies
  {
    if q in db.proxies then after.proxies[q].hostname == db.proxies[q].hostname
    else ByHostname(db, after.proxies[q].hostname).None?
  }

  lemma RegisteredOrigin(w: World, s: Step, q: Id)
    requires Enabled(w, s) && s.Registers? && q in Next(w, s).db.proxies
    ensures Origin(w.db, Next(w, s).db, q)
  {
    RegisterOrigin(w.db, RequestOf(w.machines[s.m], s.config), s.newId, w.now, s.losses, q);
  }

  lemma PolledOrigin(w: World, s: Step, q: Id)
    requires Inv(w.db) && Enabled(w, s) && s.Polls? && q in Next(w, s).db.proxies
    ensures Origin(w.db, Next(w, s).db, q)
  {
    PollTouches(w, s);
  }

  lemma RowOrigin(w: World, s: Step, q: Id)
    requires Inv(w.db) && Enabled(w, s) && q in Next(w, s).db.proxies
    ensures Origin(w.db, Next(w, s).db, q)
  {
    if s.Call? {
      ServiceRows(w.db, s.e);
    } else if s.Registers? {
      RegisteredOrigin(w, s, q);
    } else if s.Polls? {
      PolledOrigin(w, s, q);
    } else {
      OtherOrigin(w, s, q);
    }
  }

  lemma OtherOrigin(w: World, s: Step, q: Id)
    requires Enabled(w, s) && !s.Call? && !s.Registers? && !s.Polls? && q in Next(w, s).db.proxies
    ensures Origin(w.db, Next(w, s).db, q)
  {
  }

  lemma OneName(db: Db, host: string, p: Id, q: Id)
    requires Integrity(db) && Named(db, p, host) && Named(db, q, host)
    ensures p == q
  {
  }

  lemma SameRow(w: World, s: Step, host: string, p: Id, q: Id)
    requires Inv(w.db) && Enabled(w, s) && Named(w.db, p, host) && Named(Next(w, s).db, q, host)
    ensures q == p
  {
    RowOrigin(w, s, q);
    if q in w.db.proxies { OneName(w.db, host, p, q); }
  }

  // The hash of the last report of success that arrives for that host, or h if none does.
  function LastArrived(ss: seq<Step>, host: string, h: Hash): Hash
    decreases |ss|
  {
    if ss == [] then h else LastArrived(ss[1..], host, if ArrivesFor(ss[0], host) then ss[0].ack.hash else h)
  }

  lemma RowStep(w: World, s: Step, host: string, p: Id, h: Hash)
    requires Inv(w.db) && Enabled(w, s) && Recorded(w.db, host, p, h) && ByHostname(Next(w, s).db, host).Some?
    ensures Recorded(Next(w, s).db, host, p, if ArrivesFor(s, host) then s.ack.hash else h)
  {
    SameRow(w, s, host, p, ByHostname(Next(w, s).db, host).value);
    RowHash(w, s, host, p, h);
  }

  // No acknowledgement of that host more than before.
  ghost predicate NoneAdded(acks: multiset<AckInFlight>, more: multiset<AckInFlight>, host: string) {
    forall a: AckInFlight :: a.host == host ==> more[a] <= acks[a]
  }

  lemma NoneAddedStep(w: World, s: Step, m: nat, host: string)
    requires Enabled(w, s) && Sole(w, m, host) && !(s.SendsAck? && s.m == m)
    ensures NoneAdded(w.acks, Next(w, s).acks, host)
  {
  }

  // The machine m, alone on its host, is idle with the node n, whose saved hash names the
  // files f.
  ghost predicate Resting(w: World, m: nat, host: string, f: Files, n: Node) {
    WorldInv(w) && Settled(w, m, host, n) && n.saved == HashOf(f) && Sole(w, m, host)
  }

  // ... and all along ss the host is served just these.
  ghost predicate Quiescent(w: World, ss: seq<Step>, m: nat, host: string, f: Files, n: Node) {
    Resting(w, m, host, f, n) && IsRun(w, ss) && ServedAll(w, ss, host, f)
  }

  lemma RestStep(w: World, s: Step, m: nat, host: string, f: Files, n: Node)
    requires Resting(w, m, host, f, n) && Enabled(w, s) && exists c :: Serves(w.db, host, c, f)
    ensures Resting(Next(w, s), m, host, f, n) && Sends(w, s, m) == [] && NoneAdded(w.acks, Next(w, s).acks, host)
  {
    NamedStep(w, s, m, host, f, n);
    QuietStep(w, s, m, host);
    StepKeepsWorld(w, s);
  }

  lemma QuietStep(w: World, s: Step, m: nat, host: string)
    requires Enabled(w, s) && Sole(w, m, host) && !(s.SendsAck? && s.m == m)
    ensures Sole(Next(w, s), m, host) && Sends(w, s, m) == [] && NoneAdded(w.acks, Next(w, s).acks, host)
  {
    SoleStep(w, s, m, host);
    NoneAddedStep(w, s, m, host);
  }

  lemma FirstOfRun(w: World, ss: seq<Step>, host: string, f: Files)
    requires IsRun(w, ss) && ServedAll(w, ss, host, f) && ss != []
    ensures Enabled(w, ss[0]) && (exists c :: Serves(w.db, host, c, f))
    ensures IsRun(Next(w, ss[0]), ss[1..]) && ServedAll(Next(w, ss[0]), ss[1..], host, f)
  {
  }

  lemma NamedOn(w: World, ss: seq<Step>, m: nat, host: string, f: Files, n: Node)
    requires Quiescent(w, ss, m, host, f, n) && ss != []
    ensures Quiescent(Next(w, ss[0]), ss[1..], m, host, f, n)
    ensures Sends(w, ss[0], m) == [] && NoneAdded(w.acks, Next(w, ss[0]).acks, host)
  {
    FirstOfRun(w, ss, host, f);
    RestStep(w, ss[0], m, host, f, n);
  }

  lemma ServedNext(w: World, ss: seq<Step>, host: string, f: Files)
    requires ServedAll(w, ss, host, f) && ss != []
    ensures ByHostname(Next(w, ss[0]).db, host).Some?
  {
    assert ServedAll(Next(w, ss[0]), ss[1..], host, f);
    var c :| Serves(Next(w, ss[0]).db, host, c, f);
  }

  // A lost acknowledgement is never sent again. In every run in which the files that a
  // machine has saved the hash of stay served, it sends nothing, and no acknowledgement for
  // its host gets under way ...
  lemma {:induction false} LostAckIsNotRepeated(w: World, ss: seq<Step>, m: nat, host: string, f: Files, n: Node)
    requires Quiescent(w, ss, m, host, f, n)
    ensures SentBy(w, ss, m) == [] && NoneAdded(w.acks, After(w, ss).acks, host)
    decreases |ss|
  {
    if ss != [] {
      NamedOn(w, ss, m, host, f, n);
      LostAckIsNotRepeated(Next(w, ss[0]), ss[1..], m, host, f, n);
    }
  }

  // ... and its row ends with the hash of the last one that arrived, or the hash it had.
  lemma {:induction false} RowIsLastArrived(w: World, ss: seq<Step>, host: string, f: Files, p: Id, h: Hash)
    requires WorldInv(w) && IsRun(w, ss) && ServedAll(w, ss, host, f) && Recorded(w.db, host, p, h)
    ensures Recorded(After(w, ss).db, host, p, LastArrived(ss, host, h))
    decreases |ss|
  {
    if ss != [] {
      ServedNext(w, ss, host, f);
      RowStep(w, ss[0], host, p, h);
      StepKeepsWorld(w, ss[0]);
      RowIsLastArrived(Next(w, ss[0]), ss[1..], host, f, p, if ArrivesFor(ss[0], host) then ss[0].ack.hash else h);
    }
  }

  lemma NoneForStep(w: World, s: Step, host: string)
    requires Enabled(w, s) && NoneFor(w.acks, host) && NoneAdded(w.acks, Next(w, s).acks, host)
    ensures NoneFor(Next(w, s).acks, host) && !ArrivesFor(s, host)
  {
  }

  // Once the last one is lost, none arrives any more.
  lemma {:induction false} NoneArrives(w: World, ss: seq<Step>, m: nat, host: string, f: Files, n: Node, h: Hash)
    requires Quiescent(w, ss, m, host, f, n) && NoneFor(w.acks, host)
    ensures LastArrived(ss, host, h) == h
    decreases |ss|
  {
    if ss != [] {
      NamedOn(w, ss, m, host, f, n);
      NoneForStep(w, ss[0], host);
      NoneArrives(Next(w, ss[0]), ss[1..], m, host, f, n, h);
    }
  }
}
