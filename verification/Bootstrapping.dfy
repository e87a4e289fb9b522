/**
What the migrator finds: which files it loads, which effects its bootstrap records, and so
which migrations a run sends.
*/
module Bootstrapping {
  import opened Text
  import opened Sorting
  import opened Migrate
  import opened MigrateFacts
  import opened FiveMigrations

  // ---- Files ----

  // A number, an underscore, a title and ".sql".
  ghost predicate NamesVersion(name: string, digits: string, title: string, v: nat) {
    && name == digits + "_" + (title + ".sql") && ParseNat(digits) == Some(v) && v <= MaxInt
    && title != "" && Without(title, '\n')
  }

  lemma NamedParts(name: string, v: nat) returns (digits: string, title: string)
    requires VersionOf(name) == Some(v)
    ensures NamesVersion(name, digits, title, v)
  {
    var i := Index(name, '_').value;
    var rest := name[i + 1..];
    digits, title := name[..i], rest[..|rest| - 4];
    assert rest == title + ".sql" && name == name[..i] + [name[i]] + rest;
    assert name == digits + "_" + (title + ".sql");
  }

  lemma VersionOfIff(name: string, v: nat)
    ensures VersionOf(name) == Some(v) <==> exists digits, title :: NamesVersion(name, digits, title, v)
  {
    if VersionOf(name) == Some(v) {
      var digits, title := NamedParts(name, v);
    }
    if exists digits, title :: NamesVersion(name, digits, title, v) {
      var digits, title :| NamesVersion(name, digits, title, v);
      NameRoundTrip(digits, v, title);
    }
  }

  // Exactly the files that name a version are loaded, no directory, in order of version.
  lemma LoadedIff(entries: seq<DirEntry>, ms: seq<Migration>, m: Migration)
    requires SortOf(ms, FlatMap(FileMigration, entries), VersionKey)
    ensures Ordered(ms, VersionKey)
    ensures m in ms <==> exists e :: e in entries && Loads(e, m)
  {
    SameElements(ms, FlatMap(FileMigration, entries));
    FlatMapFrom(FileMigration, entries, m);
    forall e ensures m in FileMigration(e) <==> Loads(e, m) { FileLoads(e, m); }
  }

  ghost predicate Loads(e: DirEntry, m: Migration) {
    !e.isDir && VersionOf(e.name) == Some(m.version) && m.filename == e.name && m.body == e.body
  }

  lemma FileLoads(e: DirEntry, m: Migration)
    ensures m in FileMigration(e) <==> Loads(e, m)
  {
  }

  // ---- The bootstrap, for any migrations ----

  // The name under which a version is recorded is that of the last file that has it.
  lemma {:induction false} FilenameIff(ms: seq<Migration>, v: nat, name: string)
    ensures Filename(ms, v) == Some(name) <==>
      exists i :: 0 <= i < |ms| && ms[i].version == v && ms[i].filename == name && forall j :: i < j < |ms| ==> ms[j].version != v
    decreases |ms|
  {
    if ms != [] {
      var n := |ms| - 1;
      if ms[n].version != v {
        FilenameIff(ms[..n], v, name);
        assert forall j :: 0 <= j < n ==> ms[..n][j] == ms[j];
      }
    }
  }

  // A bootstrap that is done has added exactly the versions that have a file and a footprint.
  lemma {:induction false} BootstrapExact(st: State, ms: seq<Migration>, versions: seq<nat>, fuel: nat)
    requires Bootstrap(st, ms, versions, fuel).done
    ensures var after := Bootstrap(st, ms, versions, fuel).state;
            after.schema == st.schema &&
            forall v :: v in Tracked(after) <==>
              v in Tracked(st) || (v in versions && Filename(ms, v).Some? && Footprint(st.schema, v))
    decreases |versions|
  {
    if versions != [] {
      var v := versions[0];
      assert versions == [v] + versions[1..];
      var name := Filename(ms, v);
      if name.None? {
        BootstrapExact(st, ms, versions[1..], fuel);
      } else if !Footprint(st.schema, v) {
        BootstrapExact(st, ms, versions[1..], fuel - 1);
      } else {
        BootstrapExact(RecordOnce(st, v, name.value), ms, versions[1..], fuel - 2);
      }
    }
  }

  // ---- For the five ----

  // What 001 to 005 leave, written out.
  ghost predicate Left(s: Schema, v: nat) {
    || (v == 1 && {UserRole, ConfigStatus, RuleKind} <= s.kinds
        && { Users, Configs, DomainRules, IpRangeRules, ParentProxies, Proxies, ConfigProxies, ProxyStats, ProxyLogs,
             AuditLogs, Sessions } <= s.tables)
    || (v == 2
        && (ProxyStats, TotalRequests) in s.columns && (ProxyStats, ConnectRequests) in s.columns
        && (ProxyStats, Responses2xx) in s.columns && (ProxyStats, Responses3xx) in s.columns
        && (ProxyStats, Responses4xx) in s.columns && (ProxyStats, Responses5xx) in s.columns
        && (ProxyStats, ErrConnectFail) in s.columns && (ProxyStats, ErrClientAbort) in s.columns
        && (ProxyStats, BrokenServerConns) in s.columns && (ProxyStats, BytesIn) in s.columns
        && (ProxyStats, BytesOut) in s.columns)
    || (v == 3 && ClientAclRules in s.tables)
    || (v == 4 && (Proxies, RegisteredIp) in s.columns)
    || (v == 5 && (Configs, DefaultAction) in s.columns)
  }

  lemma LeftTwo(s: Schema)
    ensures Left(s, 2) <==> Effect(s, 2)
  {
    forall c ensures c in StatsColumns() <==> IsStats(c) { ListedStats(c); }
    assert Effect(s, 2) <==> forall c :: IsStats(c) ==> (ProxyStats, c) in s.columns;
  }

  predicate IsStats(c: Column) { c != RegisteredIp && c != DefaultAction }

  lemma ListedStats(c: Column)
    ensures c in StatsColumns() <==> IsStats(c)
  {
    var cs := StatsColumns();
    match c
    case TotalRequests => assert cs[0] == c;
    case ConnectRequests => assert cs[1] == c;
    case Responses2xx => assert cs[2] == c;
    case Responses3xx => assert cs[3] == c;
    case Responses4xx => assert cs[4] == c;
    case Responses5xx => assert cs[5] == c;
    case ErrConnectFail => assert cs[6] == c;
    case ErrClientAbort => assert cs[7] == c;
    case BrokenServerConns => assert cs[8] == c;
    case BytesIn => assert cs[9] == c;
    case BytesOut => assert cs[10] == c;
    case RegisteredIp =>
    case DefaultAction =>
  }

  // On an existing database footprint and effect are the same.
  lemma FootprintIff(s: Schema, v: nat)
    requires Grown(s)
    ensures Footprint(s, v) <==> Left(s, v)
  {
    LeftTwo(s);
  }

  // The bootstrap records every effect that is there, and no other version.
  lemma EffectsRecordedIff(st: State, ms: seq<Migration>, fuel: nat, v: nat)
    requires Good(st) && Tracked(st) == map[] && Users in st.schema.tables && IsFive(ms)
    requires Bootstrap(st, ms, Footprints, fuel).done
    ensures v in Tracked(Bootstrap(st, ms, Footprints, fuel).state) <==> Left(st.schema, v)
  {
    BootstrapExact(st, ms, Footprints, fuel);
    FootprintIff(st.schema, v);
    if 1 <= v <= 5 {
      FiveFilename(ms, v);
      assert v in Footprints by { assert Footprints[v - 1] == v; }
    }
  }

  // ---- What a run sends ----

  ghost predicate Sends(r: Outcome, m: Migration) { exists a :: a in r.sent && a.migration == m }

  // The loop sends nothing that is recorded, and when it is done it has sent all the rest.
  lemma LoopSends(st: State, ms: seq<Migration>, applied: set<nat>, fuel: nat, m: Migration)
    ensures var r := ApplyPending(st, ms, applied, fuel);
            (Sends(r, m) ==> m in ms && m.version !in applied) &&
            (r.done ==> (Sends(r, m) <==> m in ms && m.version !in applied))
  {
    var r := ApplyPending(st, ms, applied, fuel);
    SentExtendsRan(st, ms, applied, fuel);
    ApplyContract(st, ms, applied, fuel);
    PendingIs(ms, applied);
    if r.done && m in Pending(ms, applied) {
      var i :| 0 <= i < |r.ran| && r.ran[i] == m;
      assert r.sent[i].migration == m && r.sent[i] in r.sent;
    }
  }

  // What a run has to send: what is not recorded, or, where nothing is, not there.
  ghost predicate Due(st: State, v: nat) { if Tracked(st) == map[] then !Left(st.schema, v) else v !in Tracked(st) }

  // Nothing else is sent, and all of it by a run that is done.
  ghost predicate SendsDue(st: State, ms: seq<Migration>, r: Outcome, m: Migration) {
    && (Sends(r, m) ==> m in ms && Due(st, m.version))
    && (r.done ==> (Sends(r, m) <==> m in ms && Due(st, m.version)))
  }

  lemma EmptyLacksAll(v: nat)
    ensures !Left(EmptySchema(), v)
  {
  }

  lemma AfterBootstrapSends(boot: Outcome, st: State, ms: seq<Migration>, m: Migration)
    requires Tracked(st) == map[] && boot.sent == [] && (boot.done ==> forall v :: v in Tracked(boot.state) <==> Left(st.schema, v))
    ensures SendsDue(st, ms, AfterBootstrap(boot, ms), m)
  {
    if boot.done && boot.left > 0 { LoopSends(boot.state, ms, Tracked(boot.state).Keys, boot.left - 1, m); }
  }

  lemma UntrackedSends(st: State, ms: seq<Migration>, fuel: nat, m: Migration)
    requires Good(st) && Tracked(st) == map[] && IsFive(ms)
    ensures SendsDue(st, ms, ApplyAll(st, ms, fuel), m)
  {
    if fuel >= 2 {
      if Users !in st.schema.tables {
        EmptyLacksAll(m.version);
        LoopSends(st, ms, {}, fuel - 2, m);
      } else {
        var boot := Bootstrap(st, ms, Footprints, fuel - 2);
        BootstrapContract(st, ms, Footprints, fuel - 2);
        if boot.done {
          forall v ensures v in Tracked(boot.state) <==> Left(st.schema, v) { EffectsRecordedIff(st, ms, fuel - 2, v); }
        }
        AfterBootstrapSends(boot, st, ms, m);
      }
    }
  }

  lemma AllSends(st: State, ms: seq<Migration>, fuel: nat, m: Migration)
    requires Good(st) && IsFive(ms)
    ensures SendsDue(st, ms, ApplyAll(st, ms, fuel), m)
  {
    if Tracked(st) == map[] {
      UntrackedSends(st, ms, fuel, m);
    } else if fuel > 0 {
      LoopSends(st, ms, Tracked(st).Keys, fuel - 1, m);
    }
  }

  // From an empty or untracked existing database, after any runs that stopped anywhere: the
  // next run sends only what is due, and all of it when it is done.
  lemma RunSendsIff(st: State, ms: seq<Migration>, fuels: seq<nat>, fuel: nat, v: nat)
    requires Started(st) && IsFive(ms) && 1 <= v <= 5
    ensures var mid := AfterRuns(st, ms, fuels); var r := Run(mid, ms, fuel);
            (Sends(r, ms[v - 1]) ==> Due(mid, v)) && (r.done ==> (Sends(r, ms[v - 1]) <==> Due(mid, v)))
  {
    StartedGood(st);
    RunsStayGood(st, ms, fuels);
    if fuel >= 2 { AllSends(Opened(AfterRuns(st, ms, fuels)), ms, fuel - 2, ms[v - 1]); }
  }

  // Where all five effects are there, and nothing is recorded, nothing is sent.
  lemma NothingToSend(st: State, ms: seq<Migration>, fuel: nat)
    requires Started(st) && IsFive(ms) && forall v :: 1 <= v <= 5 ==> Left(st.schema, v)
    ensures Run(st, ms, fuel).sent == []
  {
    if fuel >= 2 && Run(st, ms, fuel).sent != [] {
      StartedGood(st);
      var m := Run(st, ms, fuel).sent[0].migration;
      AllSends(Opened(st), ms, fuel - 2, m);
      assert Sends(Run(st, ms, fuel), m);
    }
  }

  lemma FirstRecordOnly(st: State, ms: seq<Migration>, vs: seq<nat>, fuel: nat)
    requires IsFive(ms) && Users in st.schema.tables && vs != [] && vs[0] == 1 && |vs| > 1 && 1 < vs[1] <= 5 && fuel == 2
    ensures var r := Bootstrap(st, ms, vs, fuel); !r.done && r.state == RecordOnce(st, 1, ms[0].filename)
  {
    FiveFilename(ms, 1);
    FiveFilename(ms, vs[1]);
    assert vs[1..][0] == vs[1];
  }

  // A bootstrap that stops behind its first record, after six operations: though all five
  // effects are there, the next run has 002 to 005 to send.
  lemma HalfBootstrapResends(st: State, ms: seq<Migration>, v: nat)
    requires Started(st) && IsFive(ms) && (forall u :: 1 <= u <= 5 ==> Left(st.schema, u)) && 2 <= v <= 5
    ensures var half := Run(st, ms, 6);
            !half.done && Tracked(half.state).Keys == {1} && Sends(Run(half.state, ms, 20), ms[v - 1])
  {
    var half := Run(st, ms, 6);
    assert Left(st.schema, 1);
    FirstRecordOnly(Opened(st), ms, Footprints, 2);
    assert AfterRuns(half.state, ms, []) == half.state;
    StartedGood(st);
    RunSafe(st, ms, 6);
    RunSafe(half.state, ms, 20);
    AllSends(Opened(half.state), ms, 18, ms[v - 1]);
  }

  // ---- Why the order ----

  // Each of 002 to 005 fails where 001 did not run, and each table of 001 but the first
  // needs one before it.
  lemma LaterNeedFirst(v: nat)
    requires 2 <= v <= 5
    ensures ExecAll(EmptySchema(), Body(v)) == None
  {
    assert StatsColumns()[0] == TotalRequests;
    assert Body(v)[0].CreateTableIfMissing? || Body(v)[0].AddColumnIfMissing?;
  }

  lemma TablesNeedOthers(i: nat)
    requires 0 < i < |InitialTables()|
    ensures Exec(EmptySchema(), InitialTables()[i]) == None && Exec(BaseSchema(), InitialTables()[i]) == None
  {
    InitialPositions(i);
  }
}
