/** What a run of the migrator promises, for any migrations and for the five of the repository. */
module MigrateFacts {
  import opened Text
  import opened Sorting
  import opened Migrate

  // ---- Any migrations ----

  function Pending(ms: seq<Migration>, applied: set<nat>): seq<Migration> {
    if ms == [] then []
    else (if ms[0].version in applied then [] else [ms[0]]) + Pending(ms[1..], applied)
  }

  function Recorded(rows: map<nat, string>, ran: seq<Migration>): map<nat, string>
    decreases |ran|
  {
    if ran == [] then rows else Recorded(rows[ran[0].version := ran[0].filename], ran[1..])
  }

  function Executed(s: Schema, ran: seq<Migration>): Option<Schema>
    decreases |ran|
  {
    if ran == [] then Some(s)
    else match ExecAll(s, ran[0].body)
      case None => None
      case Some(next) => Executed(next, ran[1..])
  }

  // The loop commits a prefix of the pending migrations, each with its record, all of them
  // exactly when it finishes.
  lemma {:induction false} ApplyContract(st: State, ms: seq<Migration>, applied: set<nat>, fuel: nat)
    ensures var r := ApplyPending(st, ms, applied, fuel);
            r.ran <= Pending(ms, applied) && (r.done <==> r.ran == Pending(ms, applied)) &&
            Tracked(r.state) == Recorded(Tracked(st), r.ran) && Executed(st.schema, r.ran) == Some(r.state.schema)
    decreases |ms|
  {
    if ms != [] {
      if ms[0].version in applied {
        ApplyContract(st, ms[1..], applied, fuel);
      } else if fuel > 0 {
        match Transact(st, ms[0])
        case None =>
        case Some(next) =>
          ApplyContract(next, ms[1..], applied, fuel - 1);
          var rest := ApplyPending(next, ms[1..], applied, fuel - 1).ran;
          assert ([ms[0]] + rest)[1..] == rest;
      }
    }
  }

  lemma {:induction false} PendingIs(ms: seq<Migration>, applied: set<nat>)
    ensures forall m :: m in Pending(ms, applied) <==> m in ms && m.version !in applied
  {
    if ms != [] {
      PendingIs(ms[1..], applied);
      assert ms == [ms[0]] + ms[1..];
    }
  }

  ghost predicate Ascending(ms: seq<Migration>) {
    forall i, j :: 0 <= i < j < |ms| ==> ms[i].version < ms[j].version
  }

  lemma {:induction false} PendingAscends(ms: seq<Migration>, applied: set<nat>)
    requires Ascending(ms)
    ensures Ascending(Pending(ms, applied))
  {
    if ms != [] {
      PendingAscends(ms[1..], applied);
      PendingIs(ms[1..], applied);
      var rest := Pending(ms[1..], applied);
      forall i | 0 <= i < |rest| ensures ms[0].version < rest[i].version {
        assert rest[i] in ms[1..];
      }
    }
  }

  lemma DistinctAscend(ms: seq<Migration>)
    requires Ordered(ms, VersionKey) && DistinctKeys(ms, VersionKey)
    ensures Ascending(ms)
  {
    forall i, j | 0 <= i < j < |ms| ensures ms[i].version < ms[j].version {
      assert VersionKey(ms[i]) <= VersionKey(ms[j]) && VersionKey(ms[i]) != VersionKey(ms[j]);
    }
  }

  // The bootstrap adds records, of loaded versions whose footprint is there.
  ghost predicate Bootstrapped(st: State, mid: State, ms: seq<Migration>) {
    && mid.schema == st.schema
    && (forall v :: v in Tracked(st) ==> v in Tracked(mid) && Tracked(mid)[v] == Tracked(st)[v])
    && (forall v :: v in Tracked(mid) && v !in Tracked(st) ==>
          Footprint(st.schema, v) && Filename(ms, v) == Some(Tracked(mid)[v]))
  }

  // A transaction was tried for every migration that ran, and for at most one more.
  lemma {:induction false} SentExtendsRan(st: State, ms: seq<Migration>, applied: set<nat>, fuel: nat)
    ensures var r := ApplyPending(st, ms, applied, fuel);
            |r.ran| <= |r.sent| <= |r.ran| + 1 && (r.done ==> |r.sent| == |r.ran|) &&
            (forall i :: 0 <= i < |r.ran| ==> r.sent[i].migration == r.ran[i]) &&
            (forall a :: a in r.sent ==> a.migration in ms && a.migration.version !in applied)
    decreases |ms|
  {
    if ms != [] {
      assert ms == [ms[0]] + ms[1..];
      if ms[0].version in applied {
        SentExtendsRan(st, ms[1..], applied, fuel);
      } else if fuel > 0 && Transact(st, ms[0]).Some? {
        SentExtendsRan(Transact(st, ms[0]).value, ms[1..], applied, fuel - 1);
      }
    }
  }

  lemma {:induction false} BootstrapContract(st: State, ms: seq<Migration>, versions: seq<nat>, fuel: nat)
    ensures Bootstrapped(st, Bootstrap(st, ms, versions, fuel).state, ms) && Bootstrap(st, ms, versions, fuel).ran == [] && Bootstrap(st, ms, versions, fuel).sent == []
    decreases |versions|
  {
    if versions != [] {
      var v := versions[0];
      var name := Filename(ms, v);
      if name.None? {
        BootstrapContract(st, ms, versions[1..], fuel);
      } else if fuel > 0 && !Footprint(st.schema, v) {
        BootstrapContract(st, ms, versions[1..], fuel - 1);
      } else if fuel > 1 {
        BootstrapContract(RecordOnce(st, v, name.value), ms, versions[1..], fuel - 2);
      }
    }
  }

  // A run, wherever it stops: after a bootstrap, which only an untracked database with
  // users gets, it has committed a prefix of the pending migrations; and once it has tried
  // one, all of them exactly when it is done.
  ghost predicate RunResult(st: State, mid: State, ms: seq<Migration>, r: Outcome) {
    && Bootstrapped(st, mid, ms)
    && (Tracked(st) != map[] || Users !in st.schema.tables ==> Tracked(mid) == Tracked(st))
    && r.ran <= Pending(ms, Tracked(mid).Keys)
    && (r.done ==> r.ran == Pending(ms, Tracked(mid).Keys))
    && (r.sent != [] && r.ran == Pending(ms, Tracked(mid).Keys) ==> r.done)
    && Tracked(r.state) == Recorded(Tracked(mid), r.ran)
    && Executed(st.schema, r.ran) == Some(r.state.schema)
  }

  lemma RunContract(st: State, ms: seq<Migration>, fuel: nat) returns (mid: State)
    ensures RunResult(st, mid, ms, Run(st, ms, fuel))
  {
    mid := Opened(st);
    if fuel < 2 || ms == [] { return; }
    mid := ApplyAllContract(Opened(st), ms, fuel - 2);
  }

  lemma LoopContract(st: State, ms: seq<Migration>, applied: set<nat>, fuel: nat)
    requires applied == Tracked(st).Keys
    ensures RunResult(st, st, ms, ApplyPending(st, ms, applied, fuel))
  {
    ApplyContract(st, ms, applied, fuel);
  }

  lemma ApplyAllContract(st: State, ms: seq<Migration>, fuel: nat) returns (mid: State)
    ensures RunResult(st, mid, ms, ApplyAll(st, ms, fuel))
  {
    mid := st;
    if fuel == 0 { return; }
    if Tracked(st) != map[] {
      LoopContract(st, ms, Tracked(st).Keys, fuel - 1);
    } else if fuel > 1 {
      if Users !in st.schema.tables {
        LoopContract(st, ms, {}, fuel - 2);
      } else {
        BootstrapContract(st, ms, Footprints, fuel - 2);
        mid := Bootstrap(st, ms, Footprints, fuel - 2).state;
        AfterBootstrapContract(st, Bootstrap(st, ms, Footprints, fuel - 2), ms);
      }
    }
  }

  lemma AfterBootstrapContract(st: State, boot: Outcome, ms: seq<Migration>)
    requires Bootstrapped(st, boot.state, ms) && boot.ran == [] && boot.sent == [] && Tracked(st) == map[] && Users in st.schema.tables
    ensures RunResult(st, boot.state, ms, AfterBootstrap(boot, ms))
  {
    if boot.done && boot.left > 0 { ApplyContract(boot.state, ms, Tracked(boot.state).Keys, boot.left - 1); }
  }

  // Ascending order, and on failure exactly the smaller pending versions.
  lemma RanAreSmallest(st: State, ms: seq<Migration>, fuel: nat) returns (mid: State)
    requires Ordered(ms, VersionKey) && DistinctKeys(ms, VersionKey)
    ensures RunResult(st, mid, ms, Run(st, ms, fuel))
    ensures var ran := Run(st, ms, fuel).ran;
            Ascending(ran) &&
            (forall a, b :: a in ran && b in ms && b.version !in Tracked(mid) && b !in ran ==> a.version < b.version)
  {
    mid := RunContract(st, ms, fuel);
    DistinctAscend(ms);
    PendingAscends(ms, Tracked(mid).Keys);
    PendingIs(ms, Tracked(mid).Keys);
    PrefixIsSmallest(Pending(ms, Tracked(mid).Keys), Run(st, ms, fuel).ran);
  }

  lemma PrefixIsSmallest(pending: seq<Migration>, ran: seq<Migration>)
    requires Ascending(pending) && ran <= pending
    ensures Ascending(ran)
    ensures forall a, b :: a in ran && b in pending && b !in ran ==> a.version < b.version
  {
    assert forall k :: 0 <= k < |ran| ==> pending[k] == ran[k] && ran[k] in ran;
    forall a, b | a in ran && b in pending && b !in ran ensures a.version < b.version {
      var i :| 0 <= i < |ran| && ran[i] == a;
      var j :| 0 <= j < |pending| && pending[j] == b;
    }
  }

  lemma {:induction false} RecordedKeys(rows: map<nat, string>, ran: seq<Migration>)
    ensures forall v :: v in Recorded(rows, ran) <==> v in rows || exists m :: m in ran && m.version == v
    decreases |ran|
  {
    if ran != [] {
      RecordedKeys(rows[ran[0].version := ran[0].filename], ran[1..]);
      assert ran == [ran[0]] + ran[1..];
    }
  }

  lemma {:induction false} NothingPending(ms: seq<Migration>, applied: set<nat>)
    requires forall m :: m in ms ==> m.version in applied
    ensures Pending(ms, applied) == []
  {
    if ms != [] {
      assert ms == [ms[0]] + ms[1..];
      NothingPending(ms[1..], applied);
    }
  }

  // After a run that finished, another executes nothing and changes nothing.
  lemma DoneThenIdle(st: State, ms: seq<Migration>, fuel: nat, again: nat)
    requires Ordered(ms, VersionKey) && Run(st, ms, fuel).done
    ensures var after := Run(st, ms, fuel).state;
            Run(after, ms, again).ran == [] && Run(after, ms, again).state == after && (again >= 3 ==> Run(after, ms, again).done)
  {
    var after := Run(st, ms, fuel).state;
    AllTracked(st, ms, fuel);
    assert after.tracking.Some? && Opened(after) == after by { OpenStays(st, ms, fuel); }
    if ms != [] && again >= 3 {
      assert ms[0].version in Tracked(after);
      NothingPending(ms, Tracked(after).Keys);
      ApplyContract(after, ms, Tracked(after).Keys, again - 3);
      IdleLoop(after, ms, Tracked(after).Keys, again - 3);
    }
  }

  lemma AllTracked(st: State, ms: seq<Migration>, fuel: nat)
    requires Ordered(ms, VersionKey) && Run(st, ms, fuel).done
    ensures forall m :: m in ms ==> m.version in Tracked(Run(st, ms, fuel).state)
  {
    var mid := RunContract(st, ms, fuel);
    var ran := Run(st, ms, fuel).ran;
    RecordedKeys(Tracked(mid), ran);
    PendingIs(ms, Tracked(mid).Keys);
  }

  lemma {:induction false} IdleLoop(st: State, ms: seq<Migration>, applied: set<nat>, fuel: nat)
    requires forall m :: m in ms ==> m.version in applied
    ensures ApplyPending(st, ms, applied, fuel) == Outcome(st, true, fuel, [], [])
    decreases |ms|
  {
    if ms != [] {
      assert ms == [ms[0]] + ms[1..];
      IdleLoop(st, ms[1..], applied, fuel);
    }
  }

  lemma {:induction false} LoopOpen(st: State, ms: seq<Migration>, applied: set<nat>, fuel: nat)
    requires st.tracking.Some?
    ensures ApplyPending(st, ms, applied, fuel).state.tracking.Some?
    decreases |ms|
  {
    if ms != [] {
      if ms[0].version in applied {
        LoopOpen(st, ms[1..], applied, fuel);
      } else if fuel > 0 && Transact(st, ms[0]).Some? {
        LoopOpen(Transact(st, ms[0]).value, ms[1..], applied, fuel - 1);
      }
    }
  }

  lemma {:induction false} BootstrapOpen(st: State, ms: seq<Migration>, versions: seq<nat>, fuel: nat)
    requires st.tracking.Some?
    ensures Bootstrap(st, ms, versions, fuel).state.tracking.Some?
    decreases |versions|
  {
    if versions != [] {
      var v := versions[0];
      var name := Filename(ms, v);
      if name.None? {
        BootstrapOpen(st, ms, versions[1..], fuel);
      } else if fuel > 0 && !Footprint(st.schema, v) {
        BootstrapOpen(st, ms, versions[1..], fuel - 1);
      } else if fuel > 1 {
        BootstrapOpen(RecordOnce(st, v, name.value), ms, versions[1..], fuel - 2);
      }
    }
  }

  lemma AfterBootstrapOpen(boot: Outcome, ms: seq<Migration>)
    requires boot.state.tracking.Some?
    ensures AfterBootstrap(boot, ms).state.tracking.Some?
  {
    if boot.done && boot.left > 0 { LoopOpen(boot.state, ms, Tracked(boot.state).Keys, boot.left - 1); }
  }

  lemma ApplyAllOpen(st: State, ms: seq<Migration>, fuel: nat)
    requires st.tracking.Some?
    ensures ApplyAll(st, ms, fuel).state.tracking.Some?
  {
    if fuel == 0 { return; }
    if Tracked(st) != map[] {
      LoopOpen(st, ms, Tracked(st).Keys, fuel - 1);
    } else if fuel > 1 {
      if Users !in st.schema.tables {
        LoopOpen(st, ms, {}, fuel - 2);
      } else {
        BootstrapOpen(st, ms, Footprints, fuel - 2);
        AfterBootstrapOpen(Bootstrap(st, ms, Footprints, fuel - 2), ms);
      }
    }
  }

  lemma OpenStays(st: State, ms: seq<Migration>, fuel: nat)
    requires fuel >= 2
    ensures Run(st, ms, fuel).state.tracking.Some?
  {
    ApplyAllOpen(Opened(st), ms, fuel - 2);
  }

  // What the pending migrations must be to go through: bodies that execute in turn, and
  // versions that fit the column and are neither recorded yet nor used twice.
  ghost predicate Executable(st: State, pending: seq<Migration>) {
    && Executed(st.schema, pending).Some?
    && (forall m :: m in pending ==> m.version < 0x8000_0000 && m.version !in Tracked(st))
    && DistinctKeys(pending, VersionKey)
  }

  lemma ExecutableStep(st: State, m: Migration, rest: seq<Migration>)
    ensures Executable(st, [m] + rest) <==> Transact(st, m).Some? && Executable(Transact(st, m).value, rest)
  {
    var all := [m] + rest;
    assert all[0] == m && all[1..] == rest;
    if Executable(st, all) {
      assert m in all && forall x :: x in rest ==> x in all;
      forall x | x in rest ensures x.version != m.version {
        var i :| 0 <= i < |rest| && rest[i] == x;
        assert VersionKey(all[0]) != VersionKey(all[i + 1]);
      }
      forall i, j | 0 <= i < j < |rest| ensures VersionKey(rest[i]) != VersionKey(rest[j]) {
        assert VersionKey(all[i + 1]) != VersionKey(all[j + 1]);
      }
    }
  }

  lemma LoopDone(st: State, ms: seq<Migration>, applied: set<nat>, fuel: nat)
    requires ms != [] && fuel > 0 && ms[0].version !in applied
    ensures Pending(ms, applied) == [ms[0]] + Pending(ms[1..], applied)
    ensures ApplyPending(st, ms, applied, fuel).done <==>
            Transact(st, ms[0]).Some? && ApplyPending(Transact(st, ms[0]).value, ms[1..], applied, fuel - 1).done
  {
  }

  lemma {:induction false} LoopFinishesIff(st: State, ms: seq<Migration>, applied: set<nat>, fuel: nat)
    requires fuel >= |ms|
    ensures ApplyPending(st, ms, applied, fuel).done <==> Executable(st, Pending(ms, applied))
    decreases |ms|
  {
    if ms != [] {
      if ms[0].version in applied {
        LoopFinishesIff(st, ms[1..], applied, fuel);
        assert Pending(ms, applied) == Pending(ms[1..], applied);
      } else {
        LoopDone(st, ms, applied, fuel);
        ExecutableStep(st, ms[0], Pending(ms[1..], applied));
        if Transact(st, ms[0]).Some? { LoopFinishesIff(Transact(st, ms[0]).value, ms[1..], applied, fuel - 1); }
      }
    }
  }

  // With two operations for each version it gets through, to the same end.
  lemma {:induction false} BootstrapEnough(st: State, ms: seq<Migration>, versions: seq<nat>, fuel: nat, more: nat)
    requires fuel >= 2 * |versions| && more >= 2 * |versions|
    ensures Bootstrap(st, ms, versions, fuel).done && Bootstrap(st, ms, versions, fuel).left >= fuel - 2 * |versions|
    ensures Bootstrap(st, ms, versions, fuel).state == Bootstrap(st, ms, versions, more).state
    decreases |versions|
  {
    if versions != [] {
      var v := versions[0];
      var name := Filename(ms, v);
      if name.None? {
        BootstrapEnough(st, ms, versions[1..], fuel, more);
      } else if !Footprint(st.schema, v) {
        BootstrapEnough(st, ms, versions[1..], fuel - 1, more - 1);
      } else {
        BootstrapEnough(RecordOnce(st, v, name.value), ms, versions[1..], fuel - 2, more - 2);
      }
    }
  }

  // What the loop of a run starts from, if nothing fails before.
  function BeforeLoop(st: State, ms: seq<Migration>): State {
    var open := Opened(st);
    if Tracked(open) != map[] || Users !in open.schema.tables then open
    else Bootstrap(open, ms, Footprints, 10).state
  }

  // The migrations that are pending from there can go through.
  ghost predicate CanFinish(st: State, ms: seq<Migration>) { Executable(st, Pending(ms, Tracked(st).Keys)) }

  lemma LoopCan(st: State, ms: seq<Migration>, fuel: nat)
    requires fuel >= |ms|
    ensures ApplyPending(st, ms, Tracked(st).Keys, fuel).done <==> CanFinish(st, ms)
  {
    LoopFinishesIff(st, ms, Tracked(st).Keys, fuel);
  }

  lemma AfterCan(boot: Outcome, ms: seq<Migration>, can: bool)
    requires boot.done && boot.left > 0
    requires ApplyPending(boot.state, ms, Tracked(boot.state).Keys, boot.left - 1).done <==> can
    ensures AfterBootstrap(boot, ms).done <==> can
  {
  }

  lemma AllFinishesIff(st: State, ms: seq<Migration>, fuel: nat)
    requires fuel >= |ms| + 13 && st == Opened(st)
    ensures ApplyAll(st, ms, fuel).done <==> CanFinish(BeforeLoop(st, ms), ms)
  {
    if Tracked(st) != map[] {
      LoopCan(st, ms, fuel - 1);
    } else if Users !in st.schema.tables {
      assert Tracked(st).Keys == {};
      LoopCan(st, ms, fuel - 2);
    } else {
      var boot := Bootstrap(st, ms, Footprints, fuel - 2);
      BootstrapEnough(st, ms, Footprints, fuel - 2, 10);
      LoopCan(boot.state, ms, boot.left - 1);
      AfterCan(boot, ms, CanFinish(boot.state, ms));
    }
  }

  // A run that is not cut short finishes exactly when the migrations that are pending after
  // the bootstrap can go through; in particular two pending files of one version block the
  // migrator for good.
  lemma FinishesIff(st: State, ms: seq<Migration>, fuel: nat)
    requires fuel >= |ms| + 15
    ensures Run(st, ms, fuel).done <==> CanFinish(BeforeLoop(st, ms), ms)
  {
    if ms != [] { AllFinishesIff(Opened(st), ms, fuel - 2); }
  }
}
