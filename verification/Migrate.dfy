/**
The migrator: loading, bootstrap and the apply loop, for any migrations and with a failure
possible at every database operation. Each operation is atomic: one statement outside a
transaction, or one migration together with its record.
*/
module Migrate {
  import opened Text
  import opened Sorting

  // ---- Schema and SQL ----

  datatype Kind = UserRole | ConfigStatus | RuleKind

  datatype Table =
    | Users | Configs | DomainRules | IpRangeRules | ParentProxies | Proxies | ConfigProxies
    | ProxyStats | ProxyLogs | AuditLogs | Sessions | ClientAclRules

  datatype Column =
    | TotalRequests | ConnectRequests | Responses2xx | Responses3xx | Responses4xx | Responses5xx
    | ErrConnectFail | ErrClientAbort | BrokenServerConns | BytesIn | BytesOut
    | RegisteredIp | DefaultAction

  // columns: those that an ALTER TABLE added.
  datatype Schema = Schema(kinds: set<Kind>, tables: set<Table>, columns: set<(Table, Column)>)

  datatype Statement =
    | CreateType(kind: Kind)
    | CreateTable(table: Table, refs: set<Table>)
    | CreateTableIfMissing(table: Table, refs: set<Table>)
    | AddColumnIfMissing(table: Table, column: Column)

  function Exec(s: Schema, stmt: Statement): Option<Schema> {
    match stmt
    case CreateType(k) => if k in s.kinds then None else Some(s.(kinds := s.kinds + {k}))
    case CreateTable(t, refs) =>
      if t in s.tables || !(refs <= s.tables) then None else Some(s.(tables := s.tables + {t}))
    case CreateTableIfMissing(t, refs) =>
      if t in s.tables then Some(s)
      else if !(refs <= s.tables) then None else Some(s.(tables := s.tables + {t}))
    case AddColumnIfMissing(t, c) =>
      if t !in s.tables then None else Some(s.(columns := s.columns + {(t, c)}))
  }

  function ExecAll(s: Schema, body: seq<Statement>): Option<Schema>
    decreases |body|, s
  {
    if body == [] then Some(s)
    else match Exec(s, body[0])
      case None => None
      case Some(next) => ExecAll(next, body[1..])
  }

  // ---- Migration files ----

  datatype Migration = Migration(version: nat, filename: string, body: seq<Statement>)

  datatype DirEntry = DirEntry(name: string, isDir: bool, body: seq<Statement>)

  const MaxInt: nat := 0x7fff_ffff_ffff_ffff

  // ^(\d+)_.+\.sql$ and a number that fits an int
  function VersionOf(name: string): Option<nat> {
    match Index(name, '_')
    case None => None
    case Some(i) =>
      var rest := name[i + 1..];
      if !HasSuffix(rest, ".sql") || |rest| <= 4 || Index(rest, '\n').Some? then None
      else match ParseNat(name[..i])
        case None => None
        case Some(v) => if v <= MaxInt then Some(v) else None
  }

  const FileMigration: DirEntry -> seq<Migration> :=
    (e: DirEntry) => if e.isDir || VersionOf(e.name).None? then [] else [Migration(VersionOf(e.name).value, e.name, e.body)]

  const VersionKey: Migration -> int := (m: Migration) => m.version

  method LoadMigrations(entries: seq<DirEntry>) returns (ms: seq<Migration>)
    ensures SortOf(ms, FlatMap(FileMigration, entries), VersionKey)
  {
    ms := [];
    for i := 0 to |entries|
      invariant ms == FlatMap(FileMigration, entries[..i])
    {
      FlatMapSnoc(FileMigration, entries, i);
      if entries[i].isDir { continue; }
      var version := VersionOf(entries[i].name);
      if version.None? { continue; }
      ms := ms + [Migration(version.value, entries[i].name, entries[i].body)];
    }
    assert entries[..|entries|] == entries;
    ms := SortMigrations(ms);
  }

  method SortMigrations(rows: seq<Migration>) returns (ms: seq<Migration>)
    ensures SortOf(ms, rows, VersionKey)
  {
    var a := new Migration[|rows|](i requires 0 <= i < |rows| => rows[i]);
    assert a[..] == rows;
    SortSlice(a, VersionKey);
    ms := a[..];
  }

  // A padded number, an underscore and a title name that number.
  lemma NameRoundTrip(digits: string, v: nat, title: string)
    requires ParseNat(digits) == Some(v) && v <= MaxInt && title != "" && Without(title, '\n')
    ensures VersionOf(digits + "_" + (title + ".sql")) == Some(v)
  {
    var rest := title + ".sql";
    var name := digits + "_" + rest;
    DigitsHaveNoUnderscore(digits);
    IndexAt(digits, '_', rest);
    assert name[..|digits|] == digits && name[|digits| + 1..] == rest;
    SqlSuffix(title);
  }

  lemma SqlSuffix(title: string)
    requires Without(title, '\n')
    ensures HasSuffix(title + ".sql", ".sql") && Index(title + ".sql", '\n') == None
  {
  }

  lemma DigitsHaveNoUnderscore(s: string)
    requires ParseNat(s).Some?
    ensures Without(s, '_')
    decreases |s|
  {
    if |s| > 1 { DigitsHaveNoUnderscore(s[..|s| - 1]); }
  }

  // ---- One run, as a function of the operations that succeed before the failure ----

  // tracking: the rows of schema_migrations, None before the table exists.
  datatype State = State(schema: Schema, tracking: Option<map<nat, string>>)

  function Tracked(st: State): map<nat, string> { if st.tracking.None? then map[] else st.tracking.value }

  // A migration whose transaction was begun, and the schema it was sent to.
  datatype Attempt = Attempt(migration: Migration, schema: Schema)

  // ran: the migrations whose transaction committed; sent: all that were tried, committed or
  // not; left: operations still granted.
  datatype Outcome = Outcome(state: State, done: bool, left: nat, ran: seq<Migration>, sent: seq<Attempt>)

  function WithRecord(st: State, v: nat, filename: string): State {
    st.(tracking := Some(Tracked(st)[v := filename]))
  }

  // The column version is an INTEGER and the primary key.
  predicate Recordable(st: State, m: Migration) { m.version < 0x8000_0000 && m.version !in Tracked(st) }

  // One transaction: the body, the record and the commit, or nothing.
  function Transact(st: State, m: Migration): Option<State> {
    match ExecAll(st.schema, m.body)
    case None => None
    case Some(schema) =>
      if Recordable(st, m) then Some(WithRecord(st.(schema := schema), m.version, m.filename)) else None
  }

  function ApplyPending(st: State, ms: seq<Migration>, applied: set<nat>, fuel: nat): Outcome
    decreases |ms|
  {
    if ms == [] then Outcome(st, true, fuel, [], [])
    else if ms[0].version in applied then ApplyPending(st, ms[1..], applied, fuel)
    else
      var attempt := Attempt(ms[0], st.schema);
      if fuel == 0 then Outcome(st, false, 0, [], [attempt])
      else match Transact(st, ms[0])
        case None => Outcome(st, false, fuel - 1, [], [attempt])
        case Some(next) =>
          var rest := ApplyPending(next, ms[1..], applied, fuel - 1);
          rest.(ran := [ms[0]] + rest.ran, sent := [attempt] + rest.sent)
  }

  // The loop on a pending migration that executes, and on one that is recorded.
  lemma TakesOne(st: State, m: Migration, tail: seq<Migration>, applied: set<nat>, fuel: nat)
    requires m.version !in applied && Transact(st, m).Some?
    ensures var r := ApplyPending(st, [m] + tail, applied, fuel); var attempt := Attempt(m, st.schema);
            if fuel == 0 then r == Outcome(st, false, 0, [], [attempt])
            else var rest := ApplyPending(Transact(st, m).value, tail, applied, fuel - 1);
                 r == rest.(ran := [m] + rest.ran, sent := [attempt] + rest.sent)
  {
    assert ([m] + tail)[1..] == tail;
  }

  lemma SkipsOne(st: State, m: Migration, tail: seq<Migration>, applied: set<nat>, fuel: nat)
    requires m.version in applied
    ensures ApplyPending(st, [m] + tail, applied, fuel) == ApplyPending(st, tail, applied, fuel)
  {
    assert ([m] + tail)[1..] == tail;
  }

  lemma FailsOne(st: State, m: Migration, tail: seq<Migration>, applied: set<nat>, fuel: nat)
    requires m.version !in applied && (fuel == 0 || Transact(st, m).None?)
    ensures ApplyPending(st, [m] + tail, applied, fuel) ==
            Outcome(st, false, if fuel == 0 then 0 else fuel - 1, [], [Attempt(m, st.schema)])
  {
  }

  // whole is rest after ran and sent.
  ghost predicate Continues(whole: Outcome, rest: Outcome, ran: seq<Migration>, sent: seq<Attempt>) {
    whole == rest.(ran := ran + rest.ran, sent := sent + rest.sent)
  }

  lemma ContinuesOn(whole: Outcome, rest: Outcome, ran: seq<Migration>, sent: seq<Attempt>, m: Migration, a: Attempt)
    requires Continues(whole, rest.(ran := [m] + rest.ran, sent := [a] + rest.sent), ran, sent)
    ensures Continues(whole, rest, ran + [m], sent + [a])
  {
    assert ran + ([m] + rest.ran) == ran + [m] + rest.ran;
    assert sent + ([a] + rest.sent) == sent + [a] + rest.sent;
  }

  lemma ContinuesToEnd(whole: Outcome, rest: Outcome, ran: seq<Migration>, sent: seq<Attempt>)
    requires Continues(whole, rest, ran, sent) && rest.ran == []
    ensures whole == rest.(ran := ran, sent := sent + rest.sent)
  {
    assert ran + [] == ran;
  }

  predicate Footprint(s: Schema, v: nat) {
    || (v == 1 && Users in s.tables)
    || (v == 2 && (ProxyStats, TotalRequests) in s.columns)
    || (v == 3 && ClientAclRules in s.tables)
    || (v == 4 && (Proxies, RegisteredIp) in s.columns)
    || (v == 5 && (Configs, DefaultAction) in s.columns)
  }

  const Footprints: seq<nat> := [1, 2, 3, 4, 5]

  // The filename under which a version is recorded: the last file of that version.
  function Filename(ms: seq<Migration>, v: nat): Option<string> {
    if ms == [] then None
    else if ms[|ms| - 1].version == v then Some(ms[|ms| - 1].filename)
    else Filename(ms[..|ms| - 1], v)
  }

  // INSERT ... ON CONFLICT DO NOTHING
  function RecordOnce(st: State, v: nat, filename: string): State {
    if v in Tracked(st) then st else WithRecord(st, v, filename)
  }

  // One check and, where it succeeds, one insert for each footprint of a loaded version.
  function Bootstrap(st: State, ms: seq<Migration>, versions: seq<nat>, fuel: nat): Outcome
    decreases |versions|, |ms|
  {
    if versions == [] then Outcome(st, true, fuel, [], [])
    else
      var v := versions[0];
      match Filename(ms, v)
      case None => Bootstrap(st, ms, versions[1..], fuel)
      case Some(name) =>
        if fuel == 0 then Outcome(st, false, 0, [], [])
        else if !Footprint(st.schema, v) then Bootstrap(st, ms, versions[1..], fuel - 1)
        else if fuel == 1 then Outcome(st, false, 0, [], [])
        else Bootstrap(RecordOnce(st, v, name), ms, versions[1..], fuel - 2)
  }

  function Opened(st: State): State { st.(tracking := Some(Tracked(st))) }

  // Reading the versions, bootstrap of an untracked database that has users, reading
  // again, and the loop.
  function ApplyAll(st: State, ms: seq<Migration>, fuel: nat): Outcome {
    if fuel == 0 then Outcome(st, false, 0, [], [])
    else if Tracked(st) != map[] then ApplyPending(st, ms, Tracked(st).Keys, fuel - 1)
    else if fuel == 1 then Outcome(st, false, 0, [], [])
    else if Users !in st.schema.tables then ApplyPending(st, ms, {}, fuel - 2)
    else
      AfterBootstrap(Bootstrap(st, ms, Footprints, fuel - 2), ms)
  }

  function AfterBootstrap(boot: Outcome, ms: seq<Migration>): Outcome {
    if !boot.done then boot
    else if boot.left == 0 then boot.(done := false)
    else ApplyPending(boot.state, ms, Tracked(boot.state).Keys, boot.left - 1)
  }

  // The lock and the tracking table come first.
  function Run(st: State, ms: seq<Migration>, fuel: nat): Outcome {
    if fuel < 2 then Outcome(st, false, 0, [], [])
    else if ms == [] then Outcome(Opened(st), true, fuel - 2, [], [])
    else ApplyAll(Opened(st), ms, fuel - 2)
  }

  // ---- The run in place ----

  class Postgres {
    var schema: Schema
    var tracking: Option<map<nat, string>>
    var left: nat

    ghost function Now(): State
      reads this
    {
      State(schema, tracking)
    }

    constructor (st: State, fuel: nat)
      ensures Now() == st && left == fuel
    {
      schema, tracking, left := st.schema, st.tracking, fuel;
    }

    // Every operation may be the one that fails.
    method Operate() returns (ok: bool)
      modifies this`left
      ensures ok == (old(left) > 0) && left == if ok then old(left) - 1 else 0
    {
      ok := left > 0;
      if ok { left := left - 1; }
    }

    method CreateTrackingTable() returns (ok: bool)
      modifies this`left, this`tracking
      ensures ok == (old(left) > 0) && left == if ok then old(left) - 1 else 0
      ensures Now() == if ok then Opened(old(Now())) else old(Now())
    {
      ok := Operate();
      if ok && tracking.None? { tracking := Some(map[]); }
    }

    method ExecBody(body: seq<Statement>) returns (result: Option<Schema>)
      ensures result == ExecAll(schema, body)
    {
      var s := schema;
      for i := 0 to |body|
        invariant ExecAll(schema, body) == ExecAll(s, body[i..])
      {
        var next := Exec(s, body[i]);
        if next.None? { return None; }
        s := next.value;
      }
      result := Some(s);
    }

    method ApplyOne(m: Migration) returns (ok: bool)
      modifies this
      ensures left == if old(left) > 0 then old(left) - 1 else 0
      ensures ok == (old(left) > 0 && Transact(old(Now()), m).Some?)
      ensures Now() == if ok then Transact(old(Now()), m).value else old(Now())
    {
      ok := Operate();
      if !ok { return; }
      var result := ExecBody(m.body);
      if result.None? { return false; }
      var rows := if tracking.None? then map[] else tracking.value;
      if m.version >= 0x8000_0000 || m.version in rows { return false; }
      schema, tracking := result.value, Some(rows[m.version := m.filename]);
    }

    // sent is what the run announces before each transaction.
    method ApplyLoop(ms: seq<Migration>, applied: set<nat>) returns (ok: bool, ran: seq<Migration>, sent: seq<Attempt>)
      modifies this
      ensures Outcome(Now(), ok, left, ran, sent) == ApplyPending(old(Now()), ms, applied, old(left))
    {
      ran, sent := [], [];
      var i := 0;
      ghost var whole := ApplyPending(Now(), ms, applied, left);
      while i < |ms|
        invariant 0 <= i <= |ms|
        invariant Continues(whole, ApplyPending(Now(), ms[i..], applied, left), ran, sent)
      {
        ghost var st, fuel, tail := Now(), left, ms[i + 1..];
        var m := ms[i];
        assert ms[i..] == [m] + tail;
        if m.version in applied {
          SkipsOne(st, m, tail, applied, fuel);
          i := i + 1;
          continue;
        }
        var attempt := Attempt(m, schema);
        ok := ApplyOne(m);
        if !ok {
          FailsOne(st, m, tail, applied, fuel);
          ContinuesToEnd(whole, ApplyPending(st, [m] + tail, applied, fuel), ran, sent);
          sent := sent + [attempt];
          return;
        }
        TakesOne(st, m, tail, applied, fuel);
        ContinuesOn(whole, ApplyPending(Now(), tail, applied, left), ran, sent, m, attempt);
        ran, sent := ran + [m], sent + [attempt];
        i := i + 1;
      }
      assert ms[i..] == [];
      ContinuesToEnd(whole, Outcome(Now(), true, left, [], []), ran, sent);
      assert sent + [] == sent;
      ok := true;
    }

    method BootstrapExistingDB(ms: seq<Migration>) returns (ok: bool)
      modifies this`left, this`tracking
      ensures Outcome(Now(), ok, left, [], []) == Bootstrap(old(Now()), ms, Footprints, old(left))
    {
      var i := 0;
      while i < |Footprints|
        invariant 0 <= i <= |Footprints|
        invariant Bootstrap(old(Now()), ms, Footprints, old(left)) == Bootstrap(Now(), ms, Footprints[i..], left)
      {
        var v := Footprints[i];
        assert Footprints[i..][1..] == Footprints[i + 1..];
        var name := Filename(ms, v);
        if name.None? {
          i := i + 1;
          continue;
        }
        ok := Operate();
        if !ok { return; }
        if !Footprint(schema, v) {
          i := i + 1;
          continue;
        }
        ok := Operate();
        if !ok { return; }
        var rows := if tracking.None? then map[] else tracking.value;
        if v !in rows { tracking := Some(rows[v := name.value]); }
        i := i + 1;
      }
      ok := true;
    }

    method AppliedVersions() returns (ok: bool, applied: set<nat>)
      modifies this`left
      ensures ok == (old(left) > 0) && left == if ok then old(left) - 1 else 0
      ensures applied == Tracked(Now()).Keys
    {
      ok := Operate();
      applied := if tracking.None? then {} else tracking.value.Keys;
    }

    method ApplyMigrations(ms: seq<Migration>) returns (ok: bool, ran: seq<Migration>, sent: seq<Attempt>)
      modifies this
      ensures Outcome(Now(), ok, left, ran, sent) == ApplyAll(old(Now()), ms, old(left))
    {
      ran, sent := [], [];
      var applied;
      ok, applied := AppliedVersions();
      if !ok { return; }
      assert applied == {} <==> Tracked(Now()) == map[];
      if applied == {} {
        ok := Operate();
        if !ok { return; }
        if Users in schema.tables {
          ok := BootstrapExistingDB(ms);
          if !ok { return; }
          ok, applied := AppliedVersions();
          if !ok { return; }
        }
      }
      ok, ran, sent := ApplyLoop(ms, applied);
    }

    method RunMigrations(ms: seq<Migration>) returns (ok: bool, ran: seq<Migration>, sent: seq<Attempt>)
      modifies this
      ensures Outcome(Now(), ok, left, ran, sent) == Run(old(Now()), ms, old(left))
    {
      ran, sent := [], [];
      ok := Operate();
      if !ok { return; }
      ok := CreateTrackingTable();
      if !ok || ms == [] { return; }
      ok, ran, sent := ApplyMigrations(ms);
    }
  }
}
