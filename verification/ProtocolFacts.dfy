/** What every run of the whole system guarantees. */
module ProtocolFacts {
  import opened Text
  import opened Rules
  import opened ConfigFiles
  import opened Ties
  import opened Store
  import opened Lifecycle
  import opened LifecycleFacts
  import opened Sync
  import opened Answers
  import opened Helper
  import opened Protocol

  // ---- Acknowledged means loaded ----

  // A machine of that host has exactly these files, on disk and loaded.
  ghost predicate Held(w: World, l: Load) {
    exists m :: m in w.machines && w.machines[m].host == l.host
                && w.machines[m].node.disk == l.files && w.machines[m].node.loaded == l.files
  }

  ghost predicate HeldDuring(w: World, ss: seq<Step>, l: Load)
    decreases |ss|
  {
    ss != [] && Enabled(w, ss[0]) && (Held(Next(w, ss[0]), l) || HeldDuring(Next(w, ss[0]), ss[1..], l))
  }

  // The log grows by successful reloads of complete files, and in no other way.
  lemma LogIsReal(w: World, s: Step, l: Load)
    requires WorldInv(w) && Enabled(w, s) && l in Next(w, s).loads && l !in w.loads
    ensures s.Reloads? && s.ok && Held(Next(w, s), l)
  {
    var x := w.machines[s.m];
    LogGrows(w, s, l);
    ReloadHeld(x, w.loads);
    assert Next(w, s).machines[s.m] == AfterReload(x, true);
  }

  lemma LogGrows(w: World, s: Step, l: Load)
    requires Enabled(w, s) && l in Next(w, s).loads && l !in w.loads
    ensures s.Reloads? && s.ok && l == LoadOf(w.machines[s.m])
  {
  }

  lemma ReloadHeld(x: Machine, loads: set<Load>)
    requires MachineOk(x, loads) && x.phase.Writing? && x.phase.k >= 3
    ensures var y := AfterReload(x, true); y.node.disk == x.phase.files && y.node.loaded == x.phase.files && y.host == x.host
  {
  }

  lemma {:induction false} LogHappened(w: World, ss: seq<Step>, l: Load)
    requires WorldInv(w) && IsRun(w, ss) && l in After(w, ss).loads && l !in w.loads
    ensures HeldDuring(w, ss, l)
    decreases |ss|
  {
    if l in Next(w, ss[0]).loads {
      LogIsReal(w, ss[0], l);
    } else {
      StepKeepsWorld(w, ss[0]);
      LogHappened(Next(w, ss[0]), ss[1..], l);
    }
  }

  // Whatever is lost, late, torn or restarted: a hash in a proxy row stands for files that
  // a machine of that hostname had on disk and loaded at an earlier step.
  lemma AcknowledgedWasLoaded(start: World, ss: seq<Step>, p: Id) returns (l: Load)
    requires Start(start) && IsRun(start, ss)
    requires p in After(start, ss).db.proxies && After(start, ss).db.proxies[p].hash != NoHash
    ensures var row := After(start, ss).db.proxies[p];
            l in After(start, ss).loads && l.host == row.hostname && l.hash == row.hash && Genuine(l.hash, l.files, l.rules)
    ensures HeldDuring(start, ss, l)
  {
    var w := After(start, ss);
    StartInv(start);
    RunKeepsWorld(start, ss);
    var row := w.db.proxies[p];
    assert Confirmed(w.loads, row.hostname, row.hash);
    l :| l in w.loads && l.host == row.hostname && l.hash == row.hash;
    LogHappened(start, ss, l);
  }

  // Files logged under a hash are the files of any valid rules with that hash.
  lemma SameHashSameFiles(h: Hash, f: Files, rules: RuleSet, other: RuleSet, g: Files)
    requires Genuine(h, f, rules) && TiesHarmless(rules)
    requires Valid(other) && IsGeneration(other, g) && h == HashOf(g)
    ensures f == g
  {
    var own :| IsGeneration(rules, own) && h == HashOf(own);
    HarmlessFollows(rules);
    HashDecidesFiles(rules, other, own, g);
  }

  // Whatever was loaded on that host under that hash came from rules with harmless ties.
  ghost predicate HarmlessLoads(w: World, host: string, h: Hash) {
    forall k :: k in w.loads && k.host == host && k.hash == h ==> TiesHarmless(k.rules)
  }

  // Files logged under a hash are those with that hash, f, unless ties paired them with it.
  ghost predicate LoadedFor(l: Load, f: Files) {
    && l.hash == HashOf(f) && (l.files == f <==> HashOf(l.files) == l.hash)
    && (TiesHarmless(l.rules) ==> l.files == f)
  }

  lemma GenuineIsFor(l: Load, rules: RuleSet, f: Files)
    requires Genuine(l.hash, l.files, l.rules) && Valid(rules) && IsGeneration(rules, f) && l.hash == HashOf(f)
    ensures LoadedFor(l, f)
  {
    HashDecidesFiles(l.rules, rules, l.files, f);
    if TiesHarmless(l.rules) { SameHashSameFiles(l.hash, l.files, l.rules, rules, f); }
  }

  // In sync: files were loaded on that host before under the hash of the active config,
  // exactly its files if the ties of the rules they came from are harmless.
  lemma InSyncWasLoaded(start: World, ss: seq<Step>, p: Id, c: Id, f: Files) returns (l: Load)
    requires Start(start) && IsRun(start, ss)
    requires p in After(start, ss).db.proxies && IsActive(After(start, ss).db, c)
    requires InSync(After(start, ss).db.configs[c], After(start, ss).db.proxies[p].hash)
    requires TiesHarmless(After(start, ss).db.configs[c].rules) && IsGeneration(After(start, ss).db.configs[c].rules, f)
    ensures l.host == After(start, ss).db.proxies[p].hostname && l.hash == After(start, ss).db.proxies[p].hash
    ensures HeldDuring(start, ss, l) && LoadedFor(l, f)
  {
    var w := After(start, ss);
    l := AcknowledgedWasLoaded(start, ss, p);
    StartInv(start);
    RunKeepsWorld(start, ss);
    GoodRules(w.db, c);
    HashIsCurrent(w.db, c, f);
    GenuineIsFor(l, w.db.configs[c].rules, f);
  }

  // ---- Time ----

  // With checks at most a minute apart, an online proxy was seen in the last three minutes.
  lemma OnlineIsRecent(w: World, p: Id)
    requires Reachable(w) && p in w.db.proxies && w.db.proxies[p].online
    ensures w.db.proxies[p].lastSeen.Some? && w.db.proxies[p].lastSeen.value <= w.now <= w.db.proxies[p].lastSeen.value + 180
  {
    ReachableInv(w);
  }

  // The cleanup removes exactly the rows that were seen once and not for four hours; one
  // that was never seen stays for ever.
  lemma CleanupIff(w: World, p: Id)
    requires Reachable(w) && p in w.db.proxies
    ensures p !in Next(w, Cleanup).db.proxies <==>
            w.db.proxies[p].lastSeen.Some? && w.now - w.db.proxies[p].lastSeen.value > 14400
  {
    ReachableInv(w);
  }

  // A stranger obtains a recorded hostname only after two minutes of silence.
  lemma TakeoverInRuns(w: World, s: Step)
    requires Reachable(w) && Enabled(w, s) && s.Registers?
    requires ByHostname(w.db, w.machines[s.m].host).Some?
    ensures var x := w.machines[s.m]; var id := ByHostname(w.db, x.host).value; var row := w.db.proxies[id];
            Register(w.db, RequestOf(x, s.config), s.newId, w.now, s.losses).reply.Registered? ==>
              Owns(row, id, RequestOf(x, s.config)) || row.lastSeen.None? || w.now - row.lastSeen.value > 120
  {
    ReachableInv(w);
    var x := w.machines[s.m];
    assert Quiet(w.db, w.now) by {
      forall p | p in w.db.proxies && !w.db.proxies[p].online
        ensures w.db.proxies[p].lastSeen.None? || SilentFor(w.db.proxies[p], w.now, OfflineAfter)
      {
        assert RowClock(w.db.proxies[p], w.now, w.lastCheck);
      }
    }
    if Register(w.db, RequestOf(x, s.config), s.newId, w.now, s.losses).reply.Registered? {
      TakeoverNeedsSilence(w.db, RequestOf(x, s.config), s.newId, w.now, s.losses);
    }
  }

  // The three ways to a known hostname: its row is offline, or has recorded the address, or
  // is the one the machine was given.
  predicate MayHave(row: Proxy, p: Id, x: Machine) { !row.online || row.ip == Some(x.ip) || x.proxyId == Some(p) }

  // With nothing lost the row has the new address and is seen now.
  ghost predicate Taken(w: World, v: World, s: Step, p: Id)
    requires s.Registers? && s.m in w.machines && p in w.db.proxies
  {
    var x := w.machines[s.m];
    && s.m in v.machines && p in v.db.proxies && OnlyRow(w.db, v.db, p) && v.db.proxies[p].hostname == x.host
    && (s.answered ==> v.machines[s.m] == x.(connected := true, proxyId := Some(p)))
    && (s.losses == Lost(false, false) ==>
          v.db.proxies[p].online && v.db.proxies[p].lastSeen == Some(w.now) && (|x.ip| <= 45 ==> v.db.proxies[p].ip == Some(x.ip)))
  }

  // A machine obtains a known hostname if and only if one of the three holds; if not,
  // nothing changes.
  lemma RegistersIff(w: World, s: Step, p: Id)
    requires Inv(w.db) && Enabled(w, s) && s.Registers? && w.machines[s.m].host != ""
    requires p in w.db.proxies && w.db.proxies[p].hostname == w.machines[s.m].host
    ensures if MayHave(w.db.proxies[p], p, w.machines[s.m]) then Taken(w, Next(w, s), s, p)
            else Next(w, s).db == w.db && Next(w, s).machines == w.machines
  {
    var x := w.machines[s.m];
    KnownHostIff(w.db, RequestOf(x, s.config), s.newId, w.now, s.losses, p);
    assert w.machines[s.m := x] == w.machines;
  }

  // In particular after three minutes without a contact, from any address.
  lemma SilentIsGranted(w: World, s: Step, p: Id)
    requires Reachable(w) && Enabled(w, s) && s.Registers? && w.machines[s.m].host != ""
    requires p in w.db.proxies && w.db.proxies[p].hostname == w.machines[s.m].host
    requires w.db.proxies[p].lastSeen.Some? ==> w.now - w.db.proxies[p].lastSeen.value > 180
    ensures Taken(w, Next(w, s), s, p)
  {
    ReachableInv(w);
    if w.db.proxies[p].online { OnlineIsRecent(w, p); }
    RegistersIff(w, s, p);
  }

  // A report of failure changes no row.
  lemma FailureIsMute(w: World, s: Step)
    requires Enabled(w, s) && s.AckArrives? && !s.ack.ok
    ensures Next(w, s).db.proxies == w.db.proxies && Next(w, s).db.configs == w.db.configs && Next(w, s).db.links == w.db.links
  {
  }

  // ---- doSync, step by step ----

  lemma RunFrom(w: World, s: Step, rest: seq<Step>)
    requires Enabled(w, s) && IsRun(Next(w, s), rest)
    ensures IsRun(w, [s] + rest) && After(w, [s] + rest) == After(Next(w, s), rest)
  {
    assert ([s] + rest)[1..] == rest;
  }

  lemma {:induction false} RunThen(w: World, a: seq<Step>, b: seq<Step>)
    requires IsRun(w, a) && IsRun(After(w, a), b)
    ensures IsRun(w, a + b) && After(w, a + b) == After(After(w, a), b)
    decreases |a|
  {
    if a == [] {
      assert a + b == b;
    } else {
      RunThen(Next(w, a[0]), a[1..], b);
      assert (a + b)[1..] == a[1..] + b;
    }
  }

  lemma OneMore(w: World, a: seq<Step>, s: Step)
    requires IsRun(w, a) && Enabled(After(w, a), s)
    ensures IsRun(w, a + [s]) && After(w, a + [s]) == Next(After(w, a), s)
  {
    var v := After(w, a);
    RunFrom(v, s, []);
    assert [s] + [] == [s];
    RunThen(w, a, [s]);
  }

  // The machine after n successful writes.
  function Wrote(x: Machine, n: nat): Machine
    requires x.phase.Writing?
  {
    x.(node := x.node.(disk := Mix(x.node.disk, x.phase.files, n)), phase := x.phase.(k := n), clean := x.clean && n == 0)
  }

  lemma NoWrite(w: World, m: nat)
    requires m in w.machines && w.machines[m].phase.Writing? && w.machines[m].phase.k == 0
    ensures Put(w, m, Wrote(w.machines[m], 0)) == w
  {
    var x := w.machines[m];
    assert Wrote(x, 0) == x;
    assert w.machines[m := x] == w.machines;
  }

  lemma NextWrite(w: World, m: nat, x: Machine, n: nat)
    requires x.phase.Writing? && x.phase.k == 0 && 0 < n <= 3
    ensures var v := Put(w, m, Wrote(x, n - 1));
            Enabled(v, Writes(m, true)) && Next(v, Writes(m, true)) == Put(w, m, Wrote(x, n))
  {
    assert AfterWrite(Wrote(x, n - 1), true) == Wrote(x, n);
    PutTwice(w, m, Wrote(x, n - 1), Wrote(x, n));
  }

  lemma {:induction false} WriteSteps(w: World, m: nat, n: nat) returns (ss: seq<Step>)
    requires m in w.machines && w.machines[m].phase.Writing? && w.machines[m].phase.k == 0 && n <= 3
    ensures IsRun(w, ss) && After(w, ss) == Put(w, m, Wrote(w.machines[m], n))
  {
    if n == 0 {
      ss := [];
      NoWrite(w, m);
    } else {
      ss := WriteSteps(w, m, n - 1);
      NextWrite(w, m, w.machines[m], n);
      OneMore(w, ss, Writes(m, true));
      ss := ss + [Writes(m, true)];
    }
  }

  lemma PutTwice(w: World, m: nat, x: Machine, y: Machine)
    ensures Put(Put(w, m, x), m, y) == Put(w, m, y)
  {
    assert w.machines[m := x][m := y] == w.machines[m := y];
  }

  // What doSync sends, on its way.
  function MailOf(host: string, ack: Option<AckMessage>): multiset<AckInFlight> {
    if ack.Some? then multiset{AckInFlight(host, ack.value.hash, ack.value.ok)} else multiset{}
  }

  // The machine after doSync, from the reply on.
  ghost predicate SyncDone(w: World, v: World, m: nat, reply: ConfigReply, fate: Fate)
    requires m in w.machines
  {
    var x := w.machines[m];
    && m in v.machines && v.db == w.db && v.now == w.now
    && v.machines[m] == x.(node := AfterSync(x.node, reply, fate), phase := Idle, clean := v.machines[m].clean)
    && v.acks == w.acks + MailOf(x.host, AckOf(reply, fate))
  }

  // The report that ends a sync that failed.
  lemma ReportsFailure(w: World, m: nat)
    requires m in w.machines && w.machines[m].phase.Failed?
    ensures var x := w.machines[m]; var v := Next(w, SendsAck(m));
            Enabled(w, SendsAck(m)) && v.db == w.db && v.now == w.now && m in v.machines && v.machines[m] == x.(phase := Idle) &&
            v.acks == w.acks + multiset{AckInFlight(x.host, x.phase.hash, false)}
  {
  }

  lemma FailedWrite(w: World, m: nat, fate: Fate) returns (ss: seq<Step>)
    requires m in w.machines && w.machines[m].phase.Writing? && w.machines[m].phase.k == 0
    requires Complete(w.machines[m].phase.files) && fate.failAt < 3
    ensures IsRun(w, ss) && SyncDone(w, After(w, ss), m, Changed(w.machines[m].phase.hash, w.machines[m].phase.files), fate)
  {
    ss := WriteSteps(w, m, fate.failAt);
    OneMore(w, ss, Writes(m, false));
    ss := ss + [Writes(m, false)];
    ReportsFailure(After(w, ss), m);
    OneMore(w, ss, SendsAck(m));
    ss := ss + [SendsAck(m)];
  }

  lemma FailedReload(w: World, m: nat, fate: Fate) returns (ss: seq<Step>)
    requires m in w.machines && w.machines[m].phase.Writing? && w.machines[m].phase.k == 0
    requires fate.failAt >= 3 && !fate.reloads
    ensures IsRun(w, ss) && SyncDone(w, After(w, ss), m, Changed(w.machines[m].phase.hash, w.machines[m].phase.files), fate)
  {
    ss := WriteSteps(w, m, 3);
    OneMore(w, ss, Reloads(m, false));
    ss := ss + [Reloads(m, false)];
    ReportsFailure(After(w, ss), m);
    OneMore(w, ss, SendsAck(m));
    ss := ss + [SendsAck(m)];
  }

  lemma RunOfThree(w: World, a: Step, b: Step, c: Step)
    requires Enabled(w, a) && Enabled(Next(w, a), b) && Enabled(Next(Next(w, a), b), c)
    ensures IsRun(w, [a, b, c]) && After(w, [a, b, c]) == Next(Next(Next(w, a), b), c)
  {
    var one := Next(w, a);
    var two := Next(one, b);
    RunFrom(two, c, []);
    RunFrom(one, b, [c] + []);
    RunFrom(w, a, [b] + ([c] + []));
    assert [a] + ([b] + ([c] + [])) == [a, b, c];
  }

  // From a completed write to the acknowledgement on its way.
  lemma Finish(w: World, m: nat, save: SaveFate)
    requires m in w.machines && w.machines[m].phase.Writing? && w.machines[m].phase.k == 3
    ensures var x := w.machines[m]; var ss := [Reloads(m, true), Saves(m, save), SendsAck(m)];
            var y := AfterSave(AfterReload(x, true), save).(phase := Idle);
            IsRun(w, ss) && After(w, ss).machines == w.machines[m := y] && After(w, ss).db == w.db &&
            After(w, ss).now == w.now && After(w, ss).acks == w.acks + multiset{AckInFlight(x.host, x.phase.hash, true)}
  {
    RunOfThree(w, Reloads(m, true), Saves(m, save), SendsAck(m));
  }

  lemma Succeeded(w: World, m: nat, fate: Fate) returns (ss: seq<Step>)
    requires m in w.machines && w.machines[m].phase.Writing? && w.machines[m].phase.k == 0
    requires fate.failAt >= 3 && fate.reloads
    ensures IsRun(w, ss) && SyncDone(w, After(w, ss), m, Changed(w.machines[m].phase.hash, w.machines[m].phase.files), fate)
  {
    ss := WriteSteps(w, m, 3);
    var v := After(w, ss);
    Finish(v, m, fate.save);
    var tail := [Reloads(m, true), Saves(m, fate.save), SendsAck(m)];
    RunThen(w, ss, tail);
    ss := ss + tail;
  }

  // The steps that follow the reply.
  lemma SyncTail(v: World, m: nat, reply: ConfigReply, fate: Fate) returns (rest: seq<Step>)
    requires m in v.machines
    requires if reply.Changed? then Complete(reply.files) && v.machines[m].phase.Writing? && v.machines[m].phase.k == 0
               && v.machines[m].phase.hash == reply.hash && v.machines[m].phase.files == reply.files
             else v.machines[m].phase == Idle
    ensures IsRun(v, rest) && SyncDone(v, After(v, rest), m, reply, fate)
  {
    rest := [];
    if reply.Changed? {
      if fate.failAt < 3 {
        rest := FailedWrite(v, m, fate);
      } else if !fate.reloads {
        rest := FailedReload(v, m, fate);
      } else {
        rest := Succeeded(v, m, fate);
      }
    }
  }

  ghost function ReplyTo(w: World, s: Step): ConfigReply
    requires s.Polls? && s.m in w.machines
  {
    var x := w.machines[s.m];
    GetConfig(w.db, x.host, x.node.saved, w.now, s.lost, s.files, s.again).reply
  }

  lemma PollOutcome(w: World, s: Step)
    requires Inv(w.db) && Enabled(w, s) && s.Polls? && s.answered
    ensures var v := Next(w, s); var reply := ReplyTo(w, s);
            s.m in v.machines && v.now == w.now && v.acks == w.acks &&
            v.machines[s.m] == AfterPoll(w.machines[s.m], reply, RulesFor(w.db, w.machines[s.m].host)) &&
            (reply.Changed? ==> Complete(reply.files))
  {
    ReplyIsGenuine(w, s);
    if ReplyTo(w, s).Changed? {
      GenuineIsComplete(ReplyTo(w, s).hash, ReplyTo(w, s).files, RulesFor(w.db, w.machines[s.m].host));
    }
  }

  // The machine, and the tables, after a whole doSync.
  ghost predicate Synced(w: World, v: World, s: Step, fate: Fate)
    requires s.Polls? && s.m in w.machines && Enabled(w, s)
  {
    var x, reply := w.machines[s.m], ReplyTo(w, s);
    && s.m in v.machines && v.db == Next(w, s).db && v.now == w.now
    && v.machines[s.m].node == AfterSync(x.node, reply, fate) && v.machines[s.m].phase == Idle
    && v.machines[s.m].host == x.host && (v.machines[s.m].connected <==> reply != UnknownHost)
    && v.acks == w.acks + MailOf(x.host, AckOf(reply, fate))
  }

  lemma SyncedFrom(w: World, s: Step, fate: Fate, n: World, v: World)
    requires s.Polls? && s.m in w.machines && Enabled(w, s) && n == Next(w, s) && n.now == w.now && n.acks == w.acks && s.m in n.machines
    requires n.machines[s.m] == AfterPoll(w.machines[s.m], ReplyTo(w, s), RulesFor(w.db, w.machines[s.m].host))
    requires SyncDone(n, v, s.m, ReplyTo(w, s), fate)
    ensures Synced(w, v, s, fate)
  {
    assert w.machines[s.m].phase.Idle? && w.machines[s.m].connected;
  }

  // One whole doSync is a run of small steps with the result that the method promises,
  // for every reply and every fate.
  lemma DoSyncIsRun(w: World, s: Step, fate: Fate) returns (ss: seq<Step>)
    requires Inv(w.db) && s.Polls? && s.answered && Enabled(w, s)
    ensures ss != [] && ss[0] == s && IsRun(w, ss) && Synced(w, After(w, ss), s, fate)
  {
    PollOutcome(w, s);
    var n := Next(w, s);
    var rest := SyncTail(n, s.m, ReplyTo(w, s), fate);
    SyncedFrom(w, s, fate, n, After(n, rest));
    RunFrom(w, s, rest);
    ss := [s] + rest;
  }

  // ---- Convergence ----

  lemma ServedReply(w: World, s: Step, c: Id, f: Files)
    requires Inv(w.db) && s.Polls? && Enabled(w, s) && Serves(w.db, w.machines[s.m].host, c, f)
    ensures ReplyTo(w, s) == ReplyFor(f, w.machines[s.m].node.saved)
  {
    var x := w.machines[s.m];
    var rs := w.db.configs[c].rules;
    HarmlessFollows(rs);
    UnchangedIff(w.db, x.host, x.node.saved, w.now, s.lost, s.files, s.again, c);
  }

  // A poll leaves host, links and configs alone.
  lemma PollKeepsGoverning(w: World, s: Step, c: Id)
    requires Inv(w.db) && s.Polls? && Enabled(w, s) && Governs(w.db, w.machines[s.m].host, c)
    ensures Inv(Next(w, s).db) && Governs(Next(w, s).db, w.machines[s.m].host, c) && Next(w, s).db.configs == w.db.configs
  {
    var host := w.machines[s.m].host;
    PollTouches(w, s);
    var es := StatsIsRun(w.db, host, w.now, s.lost);
    RunKeepsInv(w.db, es);
    StatsKeepsGoverning(w.db, host, w.now, s.lost, c);
  }

  lemma StatsKeepsGoverning(db: Db, host: string, now: nat, lost: bool, c: Id)
    requires Inv(db) && Governs(db, host, c) && Inv(Stats(db, host, now, lost).db)
    ensures Governs(Stats(db, host, now, lost).db, host, c)
  {
    var after := Stats(db, host, now, lost).db;
    var p :| Named(db, p, host) && ActiveOn(db, c, p);
    assert Named(after, p, host) && ActiveOn(after, c, p);
    LimitOneIsExact(after, host, c, c);
  }

  lemma ServedComplete(rs: RuleSet, f: Files)
    requires IsGeneration(rs, f)
    ensures Complete(f)
  {
    FilesNotEmpty(rs, f);
  }

  lemma UnchangedMovesNothing(w: World, s: Step)
    requires s.Polls? && Enabled(w, s) && ReplyTo(w, s) == Unchanged
    ensures Next(w, s).machines == w.machines
  {
    var x := w.machines[s.m];
    assert w.machines[s.m := x] == w.machines;
  }

  lemma ConvergedIsQuiet(w: World, s: Step, c: Id, f: Files)
    requires Inv(w.db) && s.Polls? && Enabled(w, s) && Serves(w.db, w.machines[s.m].host, c, f)
    requires Converged(w.machines[s.m].node, f)
    ensures ReplyTo(w, s) == Unchanged && Next(w, s).machines == w.machines
  {
    ServedReply(w, s, c, f);
    UnchangedMovesNothing(w, s);
  }
}
