/**
The five migrations of the repository: whatever the schedule of crashes and restarts, the
initial schema is never executed twice, and the first run to finish leaves all of them
applied and recorded.
*/
module FiveMigrations {
  import opened Text
  import opened Sorting
  import opened Migrate
  import opened MigrateFacts

  // ---- Their bodies ----

  // 001: types and tables without IF NOT EXISTS.
  function Initial(): seq<Statement> { InitialTypes() + InitialTables() }

  function InitialTypes(): seq<Statement> {
    [CreateType(UserRole), CreateType(ConfigStatus), CreateType(RuleKind)]
  }

  function InitialTables(): seq<Statement> {
    [ CreateTable(Users, {}), CreateTable(Configs, {Users}), CreateTable(DomainRules, {Configs}),
      CreateTable(IpRangeRules, {Configs}), CreateTable(ParentProxies, {Configs}), CreateTable(Proxies, {Configs}),
      CreateTable(ConfigProxies, {Configs, Proxies, Users}), CreateTable(ProxyStats, {Proxies}),
      CreateTable(ProxyLogs, {Proxies}), CreateTable(AuditLogs, {Users}), CreateTable(Sessions, {Users}) ]
  }

  function StatsColumns(): seq<Column> {
    [ TotalRequests, ConnectRequests, Responses2xx, Responses3xx, Responses4xx, Responses5xx,
      ErrConnectFail, ErrClientAbort, BrokenServerConns, BytesIn, BytesOut ]
  }

  function AddColumns(t: Table, cs: seq<Column>): seq<Statement> {
    seq(|cs|, i requires 0 <= i < |cs| => AddColumnIfMissing(t, cs[i]))
  }

  function Body(v: nat): seq<Statement> {
    if v == 1 then Initial()
    else if v == 2 then AddColumns(ProxyStats, StatsColumns())
    else if v == 3 then [CreateTableIfMissing(ClientAclRules, {Configs})]
    else if v == 4 then [AddColumnIfMissing(Proxies, RegisteredIp)]
    else [AddColumnIfMissing(Configs, DefaultAction)]
  }

  ghost predicate IsNth(m: Migration, v: nat) { m.version == v && m.body == Body(v) }

  ghost predicate IsFive(ms: seq<Migration>) {
    |ms| == 5 && forall i :: 0 <= i < 5 ==> IsNth(ms[i], i + 1)
  }

  // ---- Their effects ----

  function EmptySchema(): Schema { Schema({}, {}, {}) }

  function BaseTables(): set<Table> {
    { Users, Configs, DomainRules, IpRangeRules, ParentProxies, Proxies, ConfigProxies, ProxyStats, ProxyLogs, AuditLogs, Sessions }
  }

  function BaseSchema(): Schema { Schema({UserRole, ConfigStatus, RuleKind}, BaseTables(), {}) }

  ghost predicate Effect(s: Schema, v: nat) {
    if v == 1 then BaseSchema().kinds <= s.kinds && BaseTables() <= s.tables
    else if v == 2 then forall c :: c in StatsColumns() ==> (ProxyStats, c) in s.columns
    else if v == 3 then ClientAclRules in s.tables
    else if v == 4 then (Proxies, RegisteredIp) in s.columns
    else v == 5 && (Configs, DefaultAction) in s.columns
  }

  // 001 is there, and 002 is there with all its columns or none.
  ghost predicate Grown(s: Schema) {
    Effect(s, 1) && ((ProxyStats, TotalRequests) in s.columns ==> Effect(s, 2))
  }

  predicate Within(s: Schema, t: Schema) { s.kinds <= t.kinds && s.tables <= t.tables && s.columns <= t.columns }

  lemma ExecCons(s: Schema, a: Statement, rest: seq<Statement>)
    ensures ExecAll(s, [a] + rest) == match Exec(s, a) case None => None case Some(t) => ExecAll(t, rest)
  {
    assert ([a] + rest)[1..] == rest;
  }

  lemma {:induction false} ExecConcat(s: Schema, a: seq<Statement>, b: seq<Statement>)
    ensures ExecAll(s, a + b) == match ExecAll(s, a) case None => None case Some(t) => ExecAll(t, b)
    decreases |a|
  {
    if a == [] {
      assert a + b == b;
    } else {
      assert (a + b)[1..] == a[1..] + b;
      if Exec(s, a[0]).Some? { ExecConcat(Exec(s, a[0]).value, a[1..], b); }
    }
  }

  // Where users exists, so does the first type: 001 fails at its first statement.
  lemma InitialFails(s: Schema)
    requires UserRole in s.kinds
    ensures ExecAll(s, Initial()) == None
  {
    assert Initial()[0] == CreateType(UserRole);
  }

  function TablesOf(stmts: seq<Statement>): set<Table> {
    set i | 0 <= i < |stmts| && stmts[i].CreateTable? :: stmts[i].table
  }

  // A list of plain CREATE TABLEs in dependency order, none of them there yet.
  lemma {:induction false} CreateAll(s: Schema, stmts: seq<Statement>)
    requires forall i :: 0 <= i < |stmts| ==> stmts[i].CreateTable? && stmts[i].table !in s.tables
    requires forall i, j :: 0 <= i < j < |stmts| ==> stmts[i].table != stmts[j].table
    requires forall i :: 0 <= i < |stmts| ==> stmts[i].refs <= s.tables + TablesOf(stmts[..i])
    ensures ExecAll(s, stmts) == Some(s.(tables := s.tables + TablesOf(stmts)))
    decreases |stmts|
  {
    if stmts != [] {
      var t := s.(tables := s.tables + {stmts[0].table});
      var rest := stmts[1..];
      assert TablesOf(stmts[..0]) == {};
      forall i | 0 <= i < |rest| ensures rest[i].refs <= t.tables + TablesOf(rest[..i]) {
        TablesSplit(stmts[..i + 1]);
        assert stmts[..i + 1][1..] == rest[..i];
      }
      CreateAll(t, rest);
      TablesSplit(stmts);
      assert t.tables + TablesOf(rest) == s.tables + TablesOf(stmts);
    } else {
      assert s.tables + TablesOf(stmts) == s.tables;
    }
  }

  lemma TablesSplit(stmts: seq<Statement>)
    requires stmts != [] && stmts[0].CreateTable?
    ensures TablesOf(stmts) == {stmts[0].table} + TablesOf(stmts[1..])
  {
    var rest := stmts[1..];
    forall t | t in TablesOf(stmts) ensures t == stmts[0].table || t in TablesOf(rest) {
      var i :| 0 <= i < |stmts| && stmts[i].CreateTable? && stmts[i].table == t;
      if i > 0 { assert rest[i - 1] == stmts[i]; }
    }
    forall t | t in TablesOf(rest) ensures t in TablesOf(stmts) {
      var i :| 0 <= i < |rest| && rest[i].CreateTable? && rest[i].table == t;
      assert stmts[i + 1] == rest[i];
    }
  }

  lemma InitialFromEmpty()
    ensures ExecAll(EmptySchema(), Initial()) == Some(BaseSchema())
  {
    var s := Schema({UserRole, ConfigStatus, RuleKind}, {}, {});
    ExecConcat(EmptySchema(), InitialTypes(), InitialTables());
    TypesFromEmpty(s);
    TablesFromTypes(s);
  }

  lemma TypesFromEmpty(s: Schema)
    requires s == Schema({UserRole, ConfigStatus, RuleKind}, {}, {})
    ensures ExecAll(EmptySchema(), InitialTypes()) == Some(s)
  {
    var a := Schema({UserRole}, {}, {});
    var b := Schema({UserRole, ConfigStatus}, {}, {});
    assert InitialTypes() == [CreateType(UserRole)] + ([CreateType(ConfigStatus)] + ([CreateType(RuleKind)] + []));
    ExecCons(EmptySchema(), CreateType(UserRole), [CreateType(ConfigStatus)] + ([CreateType(RuleKind)] + []));
    ExecCons(a, CreateType(ConfigStatus), [CreateType(RuleKind)] + []);
    ExecCons(b, CreateType(RuleKind), []);
    assert {} + {UserRole} == a.kinds && a.kinds + {ConfigStatus} == b.kinds && b.kinds + {RuleKind} == s.kinds;
    assert Exec(EmptySchema(), CreateType(UserRole)) == Some(a) && Exec(a, CreateType(ConfigStatus)) == Some(b);
    assert Exec(b, CreateType(RuleKind)) == Some(s);
  }

  lemma Earlier(stmts: seq<Statement>, j: nat, i: nat)
    requires j < i <= |stmts| && stmts[j].CreateTable?
    ensures stmts[j].table in TablesOf(stmts[..i])
  {
    assert stmts[..i][j] == stmts[j];
  }

  lemma InitialOrder(i: nat)
    requires i < |InitialTables()|
    ensures InitialTables()[i].refs <= TablesOf(InitialTables()[..i])
  {
    var l := InitialTables();
    if i > 0 { Earlier(l, 0, i); }
    if i > 1 { Earlier(l, 1, i); }
    if i > 5 { Earlier(l, 5, i); }
  }

  function Position(t: Table): nat {
    match t
    case Users => 0 case Configs => 1 case DomainRules => 2 case IpRangeRules => 3 case ParentProxies => 4
    case Proxies => 5 case ConfigProxies => 6 case ProxyStats => 7 case ProxyLogs => 8 case AuditLogs => 9
    case Sessions => 10 case ClientAclRules => 11
  }

  lemma InitialPositions(i: nat)
    requires i < |InitialTables()|
    ensures InitialTables()[i].CreateTable? && Position(InitialTables()[i].table) == i
  {
  }

  lemma InitialTablesAre()
    ensures TablesOf(InitialTables()) == BaseTables()
  {
    var l := InitialTables();
    forall t | t in BaseTables() ensures t in TablesOf(l) {
      assert l[Position(t)].table == t;
      assert l[..|l|] == l;
      Earlier(l, Position(t), |l|);
    }
  }

  lemma TablesFromTypes(s: Schema)
    requires s.tables == {}
    ensures ExecAll(s, InitialTables()) == Some(s.(tables := BaseTables()))
  {
    var l := InitialTables();
    InitialTablesAre();
    assert s.tables + BaseTables() == BaseTables();
    AllPositioned(l);
    forall i | 0 <= i < |l| ensures l[i].refs <= s.tables + TablesOf(l[..i]) { InitialOrder(i); }
    CreateAll(s, l);
  }

  lemma AllPositioned(l: seq<Statement>)
    requires l == InitialTables()
    ensures forall i :: 0 <= i < |l| ==> l[i].CreateTable?
    ensures forall i, j :: 0 <= i < j < |l| ==> l[i].table != l[j].table
  {
    forall i | 0 <= i < |l| ensures l[i].CreateTable? && Position(l[i].table) == i { InitialPositions(i); }
  }

  lemma {:induction false} ColumnsAdded(s: Schema, t: Table, cs: seq<Column>)
    requires t in s.tables
    ensures ExecAll(s, AddColumns(t, cs)) == Some(s.(columns := s.columns + set c | c in cs :: (t, c)))
    decreases |cs|
  {
    if cs == [] {
      assert s.columns + (set c | c in cs :: (t, c)) == s.columns;
    } else {
      var next := s.(columns := s.columns + {(t, cs[0])});
      ColumnsAdded(next, t, cs[1..]);
      assert AddColumns(t, cs) == [AddColumnIfMissing(t, cs[0])] + AddColumns(t, cs[1..]);
      ExecCons(s, AddColumnIfMissing(t, cs[0]), AddColumns(t, cs[1..]));
      assert cs == [cs[0]] + cs[1..];
      assert next.columns + (set c | c in cs[1..] :: (t, c)) == s.columns + set c | c in cs :: (t, c);
    }
  }

  // 002 to 005 can run on any grown schema, also where they have run before.
  lemma BodyGrows(s: Schema, v: nat)
    requires Grown(s) && 2 <= v <= 5
    ensures ExecAll(s, Body(v)).Some?
    ensures var t := ExecAll(s, Body(v)).value; Grown(t) && Within(s, t) && Effect(t, v)
  {
    if v == 2 {
      ColumnsAdded(s, ProxyStats, StatsColumns());
    } else {
      assert Body(v) == [Body(v)[0]] + [];
      ExecCons(s, Body(v)[0], []);
    }
  }

  lemma EffectsStay(s: Schema, t: Schema, v: nat)
    requires Within(s, t) && Effect(s, v)
    ensures Effect(t, v)
  {
  }

  // A footprint tells the effect.
  lemma FootprintTells(s: Schema, v: nat)
    requires Grown(s) && Footprint(s, v)
    ensures Effect(s, v)
  {
  }

  // ---- Which databases there can be ----

  // Nothing yet; or 001 and some of the others, recorded only where they are, 001 first.
  ghost predicate Good(st: State) {
    if Users !in st.schema.tables then st.schema == EmptySchema() && Tracked(st) == map[]
    else
      && Grown(st.schema)
      && (forall v :: v in Tracked(st) ==> 1 <= v <= 5 && Effect(st.schema, v))
      && (Tracked(st) != map[] ==> 1 in Tracked(st))
  }

  // Bodies executed one after the other.
  function Built(s: Schema, vs: seq<nat>): Option<Schema>
    decreases |vs|
  {
    if vs == [] then Some(s)
    else match ExecAll(s, Body(vs[0]))
      case None => None
      case Some(t) => Built(t, vs[1..])
  }

  // 001 with any of 002 to 005, in any order.
  ghost predicate PreExisting(s: Schema) {
    exists later :: (forall v :: v in later ==> 2 <= v <= 5) && Built(BaseSchema(), later) == Some(s)
  }

  ghost predicate Started(st: State) {
    Tracked(st) == map[] && (st.schema == EmptySchema() || PreExisting(st.schema))
  }

  lemma {:induction false} BuiltGrown(s: Schema, vs: seq<nat>)
    requires Grown(s) && (forall v :: v in vs ==> 2 <= v <= 5) && Built(s, vs).Some?
    ensures Grown(Built(s, vs).value)
    decreases |vs|
  {
    if vs != [] {
      assert vs[0] in vs && forall u :: u in vs[1..] ==> u in vs;
      BodyGrows(s, vs[0]);
      BuiltGrown(ExecAll(s, Body(vs[0])).value, vs[1..]);
    }
  }

  lemma StartedGood(st: State)
    requires Started(st)
    ensures Good(st)
  {
    if st.schema != EmptySchema() {
      var later :| (forall v :: v in later ==> 2 <= v <= 5) && Built(BaseSchema(), later) == Some(st.schema);
      BuiltGrown(BaseSchema(), later);
    }
  }

  // ---- Bootstrap ----

  lemma {:induction false} FilenameAt(ms: seq<Migration>, n: nat, v: nat)
    requires IsFive(ms) && 1 <= v <= n <= 5
    ensures Filename(ms[..n], v) == Some(ms[v - 1].filename)
  {
    assert ms[..n][n - 1] == ms[n - 1] && ms[..n][..n - 1] == ms[..n - 1];
    if v < n { FilenameAt(ms, n - 1, v); }
  }

  lemma FiveFilename(ms: seq<Migration>, v: nat)
    requires IsFive(ms) && 1 <= v <= 5
    ensures Filename(ms, v) == Some(ms[v - 1].filename)
  {
    FilenameAt(ms, 5, v);
    assert ms[..5] == ms;
  }

  // With 001 recorded, stopping anywhere leaves a good database.
  ghost predicate FirstRecorded(st: State) { Good(st) && 1 in Tracked(st) }

  lemma RecordFound(st: State, v: nat, filename: string)
    requires FirstRecorded(st) && Footprint(st.schema, v)
    ensures FirstRecorded(RecordOnce(st, v, filename)) && RecordOnce(st, v, filename).schema == st.schema
  {
    FootprintTells(st.schema, v);
  }

  lemma {:induction false} BootstrapRest(st: State, ms: seq<Migration>, vs: seq<nat>, fuel: nat)
    requires IsFive(ms) && FirstRecorded(st) && forall v :: v in vs ==> 1 <= v <= 5
    ensures var r := Bootstrap(st, ms, vs, fuel);
            FirstRecorded(r.state) && r.state.schema == st.schema && r.left <= fuel &&
            (fuel >= 2 * |vs| ==> r.done && r.left >= fuel - 2 * |vs|)
    decreases |vs|
  {
    if vs != [] {
      var v := vs[0];
      assert v in vs && forall u :: u in vs[1..] ==> u in vs;
      FiveFilename(ms, v);
      if fuel > 0 && !Footprint(st.schema, v) {
        BootstrapRest(st, ms, vs[1..], fuel - 1);
      } else if fuel > 1 {
        RecordFound(st, v, ms[v - 1].filename);
        BootstrapRest(RecordOnce(st, v, ms[v - 1].filename), ms, vs[1..], fuel - 2);
      }
    }
  }

  // The first record of a bootstrap is that of 001.
  lemma BootstrapGood(st: State, ms: seq<Migration>, fuel: nat)
    requires IsFive(ms) && Good(st) && Users in st.schema.tables
    ensures var r := Bootstrap(st, ms, Footprints, fuel);
            Good(r.state) && r.state.schema == st.schema && (r.done ==> 1 in Tracked(r.state)) &&
            (fuel >= 10 ==> r.done && r.left >= fuel - 10)
  {
    FiveFilename(ms, 1);
    var rest := Footprints[1..];
    assert Footprints == [1] + rest && rest == [2, 3, 4, 5];
    if fuel > 1 {
      var next := RecordOnce(st, 1, ms[0].filename);
      BootstrapRest(next, ms, rest, fuel - 2);
    }
  }

  // ---- The loop ----

  // Migrations 1 to i are dealt with, 001 among them.
  ghost predicate Progress(st: State, applied: set<nat>, i: nat) {
    && Good(st) && Users in st.schema.tables && 1 in Tracked(st)
    && forall v :: v in Tracked(st) <==> v in applied || 1 <= v <= i
  }

  lemma RecordGood(st: State, m: Migration, s: Schema)
    requires Good(st) && Users in st.schema.tables && 1 in Tracked(st) && 2 <= m.version <= 5
    requires Within(st.schema, s) && Grown(s) && Effect(s, m.version)
    ensures Good(WithRecord(st.(schema := s), m.version, m.filename))
  {
    forall v | v in Tracked(st) ensures Effect(s, v) { EffectsStay(st.schema, s, v); }
  }

  lemma OneStep(st: State, m: Migration, applied: set<nat>)
    requires 2 <= m.version <= 5 && m.body == Body(m.version) && m.version !in applied
    requires Progress(st, applied, m.version - 1)
    ensures Transact(st, m).Some? && Progress(Transact(st, m).value, applied, m.version)
  {
    BodyGrows(st.schema, m.version);
    RecordGood(st, m, ExecAll(st.schema, m.body).value);
  }

  // What was sent could execute where it was sent, and 001 went nowhere where users exist.
  ghost predicate SentWell(sent: seq<Attempt>) {
    forall a :: a in sent ==>
      ExecAll(a.schema, a.migration.body).Some? && (a.migration.version == 1 ==> Users !in a.schema.tables)
  }

  ghost predicate LoopResult(r: Outcome) {
    && Good(r.state) && Users in r.state.schema.tables && SentWell(r.sent)
    && (r.done ==> forall v :: v in Tracked(r.state) <==> 1 <= v <= 5)
  }

  lemma SentMore(a: Attempt, rest: seq<Attempt>)
    requires SentWell(rest) && ExecAll(a.schema, a.migration.body).Some?
    requires a.migration.version == 1 ==> Users !in a.schema.tables
    ensures SentWell([a] + rest) && SentWell([a])
  {
  }

  ghost predicate MaySend(m: Migration, st: State) {
    Transact(st, m).Some? && (m.version == 1 ==> Users !in st.schema.tables)
  }

  lemma OneSent(m: Migration, st: State, rest: Outcome)
    requires LoopResult(rest) && MaySend(m, st)
    ensures LoopResult(rest.(ran := [m] + rest.ran, sent := [Attempt(m, st.schema)] + rest.sent))
  {
    SentMore(Attempt(m, st.schema), rest.sent);
  }

  lemma OnlySent(m: Migration, st: State)
    requires MaySend(m, st)
    ensures SentWell([Attempt(m, st.schema)])
  {
  }

  lemma TakesWell(st: State, m: Migration, tail: seq<Migration>, applied: set<nat>, fuel: nat)
    requires m.version !in applied && MaySend(m, st) && Good(st) && Users in st.schema.tables
    requires fuel > 0 ==> LoopResult(ApplyPending(Transact(st, m).value, tail, applied, fuel - 1))
    ensures LoopResult(ApplyPending(st, [m] + tail, applied, fuel))
    ensures fuel > 0 && ApplyPending(Transact(st, m).value, tail, applied, fuel - 1).done ==> ApplyPending(st, [m] + tail, applied, fuel).done
  {
    TakesOne(st, m, tail, applied, fuel);
    if fuel == 0 {
      OnlySent(m, st);
    } else {
      OneSent(m, st, ApplyPending(Transact(st, m).value, tail, applied, fuel - 1));
    }
  }

  lemma {:induction false} LoopRest(st: State, ms: seq<Migration>, i: nat, applied: set<nat>, fuel: nat)
    requires IsFive(ms) && 1 <= i <= 5 && Progress(st, applied, i)
    ensures var r := ApplyPending(st, ms[i..], applied, fuel); LoopResult(r) && (fuel >= 5 - i ==> r.done)
    decreases 5 - i
  {
    if i == 5 {
      assert ms[5..] == [];
    } else {
      var m, tail := ms[i], ms[i + 1..];
      assert ms[i..] == [m] + tail && IsNth(m, i + 1);
      if m.version in applied {
        SkipsOne(st, m, tail, applied, fuel);
        LoopRest(st, ms, i + 1, applied, fuel);
      } else {
        OneStep(st, m, applied);
        if fuel > 0 { LoopRest(Transact(st, m).value, ms, i + 1, applied, fuel - 1); }
        TakesWell(st, m, tail, applied, fuel);
      }
    }
  }

  lemma FirstStep(st: State, m: Migration)
    requires Good(st) && Users !in st.schema.tables && m.version == 1 && m.body == Initial()
    ensures Transact(st, m).Some? && Progress(Transact(st, m).value, {}, 1)
  {
    InitialFromEmpty();
  }

  // On an empty database the loop starts with 001.
  lemma LoopFromEmpty(st: State, ms: seq<Migration>, fuel: nat)
    requires IsFive(ms) && Good(st) && Users !in st.schema.tables
    ensures var r := ApplyPending(st, ms, {}, fuel);
            Good(r.state) && SentWell(r.sent) && (r.done ==> LoopResult(r)) && (fuel >= 5 ==> r.done)
  {
    var m, tail := ms[0], ms[1..];
    assert ms == [m] + tail && IsNth(m, 1);
    FirstStep(st, m);
    TakesOne(st, m, tail, {}, fuel);
    if fuel == 0 {
      OnlySent(m, st);
    } else {
      LoopRest(Transact(st, m).value, ms, 1, {}, fuel - 1);
      OneSent(m, st, ApplyPending(Transact(st, m).value, tail, {}, fuel - 1));
    }
  }

  // ---- Runs ----

  // What one run can leave of a good database, and what it may send to it.
  ghost predicate RunIsSafe(r: Outcome, fuel: nat) {
    && Good(r.state) && SentWell(r.sent)
    && (r.done ==> forall v :: v in Tracked(r.state) <==> 1 <= v <= 5)
    && (r.done ==> forall v :: 1 <= v <= 5 ==> Effect(r.state.schema, v))
    && (fuel >= 20 ==> r.done)
  }

  lemma LoopIsSafe(r: Outcome, fuel: nat)
    requires Good(r.state) && SentWell(r.sent) && (r.done ==> LoopResult(r)) && (fuel >= 20 ==> r.done)
    ensures RunIsSafe(r, fuel)
  {
  }

  lemma LoopTracked(st: State, ms: seq<Migration>, fuel: nat)
    requires IsFive(ms) && Good(st) && Users in st.schema.tables && 1 in Tracked(st)
    ensures var r := ApplyPending(st, ms, Tracked(st).Keys, fuel); LoopResult(r) && (fuel >= 4 ==> r.done)
  {
    assert ms == [ms[0]] + ms[1..] && IsNth(ms[0], 1);
    SkipsOne(st, ms[0], ms[1..], Tracked(st).Keys, fuel);
    LoopRest(st, ms, 1, Tracked(st).Keys, fuel);
  }

  lemma BootstrapThenLoop(ms: seq<Migration>, boot: Outcome, fuel: nat)
    requires IsFive(ms) && Good(boot.state) && Users in boot.state.schema.tables
    requires boot.sent == [] && (boot.done ==> 1 in Tracked(boot.state)) && (fuel >= 20 ==> boot.done && boot.left >= 5)
    ensures RunIsSafe(AfterBootstrap(boot, ms), fuel)
  {
    if boot.done && boot.left > 0 {
      LoopTracked(boot.state, ms, boot.left - 1);
      LoopIsSafe(AfterBootstrap(boot, ms), fuel);
    }
  }

  lemma ApplyAllSafe(st: State, ms: seq<Migration>, fuel: nat, granted: nat)
    requires IsFive(ms) && Good(st) && (granted >= 20 ==> fuel >= 18)
    ensures RunIsSafe(ApplyAll(st, ms, fuel), granted)
  {
    if fuel == 0 { return; }
    if Tracked(st) != map[] {
      LoopTracked(st, ms, fuel - 1);
      LoopIsSafe(ApplyAll(st, ms, fuel), granted);
    } else if fuel > 1 {
      if Users !in st.schema.tables {
        LoopFromEmpty(st, ms, fuel - 2);
        LoopIsSafe(ApplyAll(st, ms, fuel), granted);
      } else {
        BootstrapGood(st, ms, fuel - 2);
        BootstrapContract(st, ms, Footprints, fuel - 2);
        BootstrapThenLoop(ms, Bootstrap(st, ms, Footprints, fuel - 2), granted);
      }
    }
  }

  lemma RunSafe(st: State, ms: seq<Migration>, fuel: nat)
    requires IsFive(ms) && Good(st)
    ensures RunIsSafe(Run(st, ms, fuel), fuel)
  {
    if fuel >= 2 { ApplyAllSafe(Opened(st), ms, fuel - 2, fuel); }
  }

  // One run after another, each stopped after so many operations.
  function AfterRuns(st: State, ms: seq<Migration>, fuels: seq<nat>): State
    decreases |fuels|
  {
    if fuels == [] then st else AfterRuns(Run(st, ms, fuels[0]).state, ms, fuels[1..])
  }

  lemma {:induction false} RunsStayGood(st: State, ms: seq<Migration>, fuels: seq<nat>)
    requires IsFive(ms) && Good(st)
    ensures Good(AfterRuns(st, ms, fuels))
    decreases |fuels|
  {
    if fuels != [] {
      RunSafe(st, ms, fuels[0]);
      RunsStayGood(Run(st, ms, fuels[0]).state, ms, fuels[1..]);
    }
  }

  // From an empty or an untracked existing database, after any number of runs that stopped
  // anywhere: the next run sends 001 only to a database without users, sends no body that
  // fails, finishes when it is let run, and once it finishes all five effects are there and
  // exactly 1 to 5 recorded.
  lemma CrashSafe(st: State, ms: seq<Migration>, fuels: seq<nat>, fuel: nat)
    requires Started(st) && IsFive(ms)
    ensures RunIsSafe(Run(AfterRuns(st, ms, fuels), ms, fuel), fuel)
  {
    StartedGood(st);
    RunsStayGood(st, ms, fuels);
    RunSafe(AfterRuns(st, ms, fuels), ms, fuel);
  }

  // The bootstrap is what makes it safe: without it the loop sends 001 to an existing
  // database, where it fails.
  lemma LoopAloneIsUnsafe(st: State, ms: seq<Migration>, fuel: nat)
    requires IsFive(ms) && Good(st) && Users in st.schema.tables
    ensures !SentWell(ApplyPending(Opened(st), ms, {}, fuel).sent)
    ensures !ApplyPending(Opened(st), ms, {}, fuel).done
  {
    InitialFails(st.schema);
    var r := ApplyPending(Opened(st), ms, {}, fuel);
    assert r.sent[0] == Attempt(ms[0], st.schema);
    assert r.sent[0] in r.sent;
  }

  // ---- The directory ----

  function Title(v: nat): string {
    if v == 1 then "initial" else if v == 2 then "expanded_stats" else if v == 3 then "client_acl_rules"
    else if v == 4 then "proxy_registered_ip" else "config_default_action"
  }

  function Padded(v: nat): string { "00" + PrintNat(v) }

  function FileOf(v: nat): DirEntry { DirEntry(Padded(v) + "_" + (Title(v) + ".sql"), false, Body(v)) }

  function MigrationOf(v: nat): Migration { Migration(v, FileOf(v).name, Body(v)) }

  lemma PaddedNumber(v: nat)
    requires 1 <= v <= 9
    ensures ParseNat(Padded(v)) == Some(v)
  {
    var d := PrintNat(v);
    ParsePrintNat(v);
    assert Padded(v)[..2] == "00" && Padded(v)[2] == d[0] && |d| == 1;
    assert ParseNat("00") == Some(0) by { assert "00"[..1] == "0"; }
  }

  lemma Line1() ensures Without("initial", '\n') {}
  lemma Line2() ensures Without("expanded_stats", '\n') {}
  lemma Line3() ensures Without("client_acl_rules", '\n') {}
  lemma Line4() ensures Without("proxy_registered_ip", '\n') {}
  lemma Line5() ensures Without("config_default_action", '\n') {}

  lemma TitleIsLine(v: nat)
    ensures Title(v) != "" && Without(Title(v), '\n')
  {
    Line1();
    Line2();
    Line3();
    Line4();
    Line5();
  }

  lemma FileVersion(v: nat)
    requires 1 <= v <= 5
    ensures FileMigration(FileOf(v)) == [MigrationOf(v)]
  {
    PaddedNumber(v);
    TitleIsLine(v);
    NameRoundTrip(Padded(v), v, Title(v));
  }

  ghost predicate AreFiles(entries: seq<DirEntry>) {
    |entries| == 5 && forall i :: 0 <= i < 5 ==> FileMigration(entries[i]) == [MigrationOf(i + 1)]
  }

  ghost predicate Numbered(ms: seq<Migration>, n: nat) {
    |ms| == n && forall i :: 0 <= i < n ==> ms[i] == MigrationOf(i + 1)
  }

  lemma OneMoreNumbered(ms: seq<Migration>, n: nat)
    requires Numbered(ms, n)
    ensures Numbered(ms + [MigrationOf(n + 1)], n + 1)
  {
  }

  lemma {:induction false} FilesInOrder(entries: seq<DirEntry>, n: nat)
    requires AreFiles(entries) && n <= 5
    ensures Numbered(FlatMap(FileMigration, entries[..n]), n)
  {
    if n > 0 {
      FilesInOrder(entries, n - 1);
      FlatMapSnoc(FileMigration, entries, n - 1);
      OneMoreNumbered(FlatMap(FileMigration, entries[..n - 1]), n - 1);
    }
  }

  lemma FilesAre(entries: seq<DirEntry>)
    requires |entries| == 5 && forall i :: 0 <= i < 5 ==> entries[i] == FileOf(i + 1)
    ensures AreFiles(entries)
  {
    forall i | 0 <= i < 5 ensures FileMigration(entries[i]) == [MigrationOf(i + 1)] { FileVersion(i + 1); }
  }

  lemma FiveDistinct(ms: seq<Migration>)
    requires IsFive(ms)
    ensures Ordered(ms, VersionKey) && DistinctKeys(ms, VersionKey)
  {
  }

  lemma {:induction false} FilesAreFive(entries: seq<DirEntry>)
    requires AreFiles(entries)
    ensures IsFive(FlatMap(FileMigration, entries))
  {
    FilesInOrder(entries, 5);
    assert entries[..5] == entries;
  }

  lemma {:induction false} FilesLoad(entries: seq<DirEntry>, ms: seq<Migration>)
    requires AreFiles(entries) && SortOf(ms, FlatMap(FileMigration, entries), VersionKey)
    ensures IsFive(ms)
  {
    FilesAreFive(entries);
    FiveDistinct(FlatMap(FileMigration, entries));
    OrderIsUnique(FlatMap(FileMigration, entries), ms, VersionKey);
  }

  // The five files of the directory load as the five migrations, in order.
  lemma {:induction false} DirectoryLoads(entries: seq<DirEntry>, ms: seq<Migration>)
    requires |entries| == 5 && forall i :: 0 <= i < 5 ==> entries[i] == FileOf(i + 1)
    requires SortOf(ms, FlatMap(FileMigration, entries), VersionKey)
    ensures IsFive(ms)
  {
    FilesAre(entries);
    FilesLoad(entries, ms);
  }
}
