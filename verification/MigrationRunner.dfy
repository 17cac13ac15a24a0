/** Applying migrations: a locked, restartable run over a history table, under crashes and concurrency. */
module MigrationRunner {
  import opened Basics
  import opened SortedLists

  datatype Migration = Migration(version: int, name: string, checksum: string, sql: string)

  datatype Record = Record(version: int, name: string, checksum: string)

  function RecordOf(m: Migration): Record {
    Record(m.version, m.name, m.checksum)
  }

  function Records(ms: seq<Migration>): (rs: seq<Record>)
    ensures |rs| == |ms| && forall i | 0 <= i < |ms| :: rs[i] == RecordOf(ms[i])
  {
    seq(|ms|, i requires 0 <= i < |ms| => RecordOf(ms[i]))
  }

  function Texts(ms: seq<Migration>): (ts: seq<string>)
    ensures |ts| == |ms| && forall i | 0 <= i < |ms| :: ts[i] == ms[i].sql
  {
    seq(|ms|, i requires 0 <= i < |ms| => ms[i].sql)
  }

  function ByVersion(): Migration -> int {
    (m: Migration) => m.version
  }

  predicate Sorted(ms: seq<Migration>) {
    AscendingBy(ms, ByVersion())
  }

  // ----- the system: one database, any number of runs

  /** `schema` lists the migration texts whose effects have been committed, in order. */
  datatype Database = Database(tracked: bool, foreign: bool, history: seq<Record>, schema: seq<string>)

  datatype Phase =
    | Waiting
    | Locked
    | MustBeEmpty
    | MustCreateHistory
    | MustReadHistory
    | Applying(next: nat)
    | Succeeded
    | Ended

  datatype Runner = Runner(list: seq<Migration>, phase: Phase)

  datatype System = System(db: Database, runners: seq<Runner>, holder: Option<nat>)

  /** How the transaction of one migration ends, as the database and as the runner see it. */
  datatype Ending = Committed | RolledBack | CommittedUnacknowledged

  datatype Happening =
    | Deploys(list: seq<Migration>)
    | Advances(k: nat, ending: Ending)
    | Dies(k: nat)
    | SomebodyCreatesATable

  predicate HoldsLock(p: Phase) {
    p.Locked? || p.MustBeEmpty? || p.MustCreateHistory? || p.MustReadHistory? || p.Applying?
  }

  /** Nothing in the public schema: no history table, no migrated object, nothing foreign. */
  predicate IsEmpty(db: Database) {
    !db.tracked && !db.foreign && db.schema == []
  }

  /** The next phase of a run, and the database after it. */
  function Step(db: Database, r: Runner, ending: Ending): (Database, Phase) {
    match r.phase
    case Locked => (db, if db.tracked then MustReadHistory else MustBeEmpty)
    case MustBeEmpty => (db, if IsEmpty(db) then MustCreateHistory else Ended)
    case MustCreateHistory => if db.tracked then (db, Ended) else (db.(tracked := true), MustReadHistory)
    case MustReadHistory =>
      (db, if |db.history| <= |r.list| && db.history == Records(r.list)[..|db.history|] then Applying(|db.history|)
           else Ended)
    case Applying(n) =>
      if n >= |r.list| then (db, Succeeded)
      else if ending == RolledBack || (exists i | 0 <= i < |db.history| :: db.history[i].version == r.list[n].version)
      then (db, Ended)
      else
        var m := r.list[n];
        (db.(history := db.history + [RecordOf(m)], schema := db.schema + [m.sql]),
         if ending == Committed then Applying(n + 1) else Ended)
    case _ => (db, r.phase)
  }

  /** Checksums identify texts: two available migrations with the same record are the same migration. */
  ghost predicate CollisionFree(a: seq<Migration>, b: seq<Migration>) {
    forall i, j | 0 <= i < |a| && 0 <= j < |b| :: RecordOf(a[i]) == RecordOf(b[j]) ==> a[i] == b[j]
  }

  ghost predicate Allowed(sys: System, h: Happening) {
    match h
    case Deploys(list) => Sorted(list) && forall k | 0 <= k < |sys.runners| :: CollisionFree(sys.runners[k].list, list)
    case Advances(k, _) => k < |sys.runners| && (sys.runners[k].phase == Waiting ==> sys.holder.None?)
    case Dies(k) => k < |sys.runners|
    case SomebodyCreatesATable => true
  }

  ghost function Happen(sys: System, h: Happening): System
    requires Allowed(sys, h)
  {
    match h
    case Deploys(list) => sys.(runners := sys.runners + [Runner(list, Waiting)])
    case Advances(k, ending) =>
      var r := sys.runners[k];
      if r.phase == Waiting then
        sys.(runners := sys.runners[k := r.(phase := Locked)], holder := Some(k))
      else
        var (db, phase) := Step(sys.db, r, ending);
        System(db, sys.runners[k := r.(phase := phase)],
               if sys.holder == Some(k) && !HoldsLock(phase) then None else sys.holder)
    case Dies(k) =>
      sys.(runners := sys.runners[k := sys.runners[k].(phase := Ended)],
           holder := if sys.holder == Some(k) then None else sys.holder)
    case SomebodyCreatesATable => sys.(db := sys.db.(foreign := true))
  }

  const START := System(Database(false, false, [], []), [], None)

  ghost function Run(happenings: seq<Happening>): Option<System> {
    if happenings == [] then Some(START)
    else
      var before := Run(happenings[..|happenings| - 1]);
      var last := happenings[|happenings| - 1];
      if before.None? || !Allowed(before.value, last) then None else Some(Happen(before.value, last))
  }

  // ----- the invariant

  /** The history and the schema tell the same story: these migrations, once each, in this order. */
  ghost predicate Applied(db: Database, ms: seq<Migration>) {
    db.history == Records(ms) && db.schema == Texts(ms) && (!db.tracked ==> ms == [])
  }

  ghost predicate RunnerInv(r: Runner, applied: seq<Migration>, tracked: bool) {
    && Sorted(r.list)
    && CollisionFree(r.list, applied)
    && (r.phase == MustReadHistory ==> tracked)
    && (r.phase.MustBeEmpty? || r.phase.MustCreateHistory? ==> !tracked)
    && (r.phase.Applying? ==> tracked && r.phase.next == |applied| && applied <= r.list)
    && (r.phase == Succeeded ==> tracked && r.list <= applied)
  }

  /** Everything applied comes from one deployed list, as its first part. */
  ghost predicate ComesFrom(runners: seq<Runner>, applied: seq<Migration>) {
    applied == [] || exists k :: 0 <= k < |runners| && applied <= runners[k].list
  }

  ghost predicate SystemInv(sys: System, applied: seq<Migration>) {
    && Applied(sys.db, applied)
    && ComesFrom(sys.runners, applied)
    && (forall k | 0 <= k < |sys.runners| :: RunnerInv(sys.runners[k], applied, sys.db.tracked))
    && (forall k | 0 <= k < |sys.runners| :: HoldsLock(sys.runners[k].phase) ==> sys.holder == Some(k))
    && (forall k, l | 0 <= k < |sys.runners| && 0 <= l < |sys.runners| ::
          CollisionFree(sys.runners[k].list, sys.runners[l].list))
  }

  lemma RecordsDetermine(list: seq<Migration>, applied: seq<Migration>)
    requires CollisionFree(list, applied)
    requires |applied| <= |list| && Records(applied) == Records(list)[..|applied|]
    ensures applied <= list
  {
    forall i | 0 <= i < |applied| ensures applied[i] == list[i] {
      assert Records(applied)[i] == Records(list)[i];
    }
    assert applied == list[..|applied|];
  }

  lemma Extend(applied: seq<Migration>, m: Migration)
    ensures Records(applied + [m]) == Records(applied) + [RecordOf(m)]
    ensures Texts(applied + [m]) == Texts(applied) + [m.sql]
  {
  }

  /** The list being applied is collision-free against everything that other runs may compare with. */
  lemma ExtendedIsCollisionFree(a: seq<Migration>, applied: seq<Migration>, list: seq<Migration>)
    requires applied <= list && CollisionFree(a, list)
    ensures CollisionFree(a, applied)
  {
  }

  /** The history's primary key never refuses the next migration of a sorted list. */
  lemma NextVersionIsNew(list: seq<Migration>, applied: seq<Migration>)
    requires Sorted(list) && applied < list
    ensures forall i | 0 <= i < |applied| :: Records(applied)[i].version != list[|applied|].version
  {
  }

  lemma CommittingKeepsInv(sys: System, k: nat, applied: seq<Migration>, phase: Phase)
    requires SystemInv(sys, applied) && k < |sys.runners|
    requires sys.runners[k].phase.Applying? && |applied| < |sys.runners[k].list|
    requires phase == Applying(|applied| + 1) || phase == Ended
    ensures var m := sys.runners[k].list[|applied|];
            SystemInv(System(sys.db.(history := sys.db.history + [RecordOf(m)], schema := sys.db.schema + [m.sql]),
                             sys.runners[k := sys.runners[k].(phase := phase)],
                             if sys.holder == Some(k) && !HoldsLock(phase) then None else sys.holder),
                      applied + [m])
  {
    var r := sys.runners[k];
    var m := r.list[|applied|];
    var more := applied + [m];
    Extend(applied, m);
    assert more == r.list[..|more|];
    var runners := sys.runners[k := r.(phase := phase)];
    assert runners[k].list == r.list && more <= runners[k].list;
    forall l | 0 <= l < |runners| ensures RunnerInv(runners[l], more, sys.db.tracked) {
      assert RunnerInv(sys.runners[l], applied, sys.db.tracked);
      ExtendedIsCollisionFree(sys.runners[l].list, more, r.list);
    }
  }

  /** A step that applies nothing. */
  lemma ReadingKeepsInv(sys: System, k: nat, applied: seq<Migration>, tracked: bool, phase: Phase, holder: Option<nat>)
    requires SystemInv(sys, applied) && k < |sys.runners|
    requires sys.db.tracked ==> tracked
    requires tracked != sys.db.tracked ==> sys.holder == Some(k)
    requires RunnerInv(sys.runners[k].(phase := phase), applied, tracked)
    requires HoldsLock(phase) ==> holder == Some(k)
    requires holder != sys.holder ==> sys.holder in {None, Some(k)}
    ensures SystemInv(System(sys.db.(tracked := tracked), sys.runners[k := sys.runners[k].(phase := phase)], holder), applied)
  {
    var runners := sys.runners[k := sys.runners[k].(phase := phase)];
    forall l | 0 <= l < |runners|
      ensures RunnerInv(runners[l], applied, tracked) && (HoldsLock(runners[l].phase) ==> holder == Some(l))
    {
      assert RunnerInv(sys.runners[l], applied, sys.db.tracked);
    }
    if applied != [] {
      var j :| 0 <= j < |sys.runners| && applied <= sys.runners[j].list;
      assert applied <= runners[j].list;
    }
  }

  lemma AdvanceKeepsInv(sys: System, k: nat, ending: Ending, applied: seq<Migration>) returns (later: seq<Migration>)
    requires SystemInv(sys, applied) && Allowed(sys, Advances(k, ending))
    ensures SystemInv(Happen(sys, Advances(k, ending)), later) && applied <= later
  {
    var r := sys.runners[k];
    assert RunnerInv(r, applied, sys.db.tracked);
    later := applied;
    if r.phase == Waiting {
      assert sys.db.(tracked := sys.db.tracked) == sys.db;
      ReadingKeepsInv(sys, k, applied, sys.db.tracked, Locked, Some(k));
    } else {
      var (db, phase) := Step(sys.db, r, ending);
      if db.history == sys.db.history {
        if r.phase == MustReadHistory && phase.Applying? {
          RecordsDetermine(r.list, applied);
        }
        assert db == sys.db.(tracked := db.tracked);
        ReadingKeepsInv(sys, k, applied, db.tracked, phase,
                        if sys.holder == Some(k) && !HoldsLock(phase) then None else sys.holder);
      } else {
        later := applied + [r.list[|applied|]];
        CommittingKeepsInv(sys, k, applied, phase);
      }
    }
  }

  lemma DeployingKeepsInv(sys: System, list: seq<Migration>, applied: seq<Migration>)
    requires SystemInv(sys, applied) && Allowed(sys, Deploys(list))
    ensures SystemInv(Happen(sys, Deploys(list)), applied)
  {
    var runners := sys.runners + [Runner(list, Waiting)];
    DeployedIsCollisionFree(sys, list, applied);
    SameListIsCollisionFree(list);
    forall k | 0 <= k < |runners| ensures RunnerInv(runners[k], applied, sys.db.tracked) {
      assert k < |sys.runners| ==> RunnerInv(sys.runners[k], applied, sys.db.tracked);
    }
    if applied != [] {
      var j :| 0 <= j < |sys.runners| && applied <= sys.runners[j].list;
      assert applied <= runners[j].list;
    }
    forall k, l | 0 <= k < |runners| && 0 <= l < |runners| ensures CollisionFree(runners[k].list, runners[l].list) {
      if k == |sys.runners| && l < |sys.runners| {
        CollisionFreeIsSymmetric(sys.runners[l].list, list);
      }
    }
  }

  lemma CollisionFreeIsSymmetric(a: seq<Migration>, b: seq<Migration>)
    requires CollisionFree(a, b)
    ensures CollisionFree(b, a)
  {
  }

  lemma DyingKeepsInv(sys: System, k: nat, applied: seq<Migration>)
    requires SystemInv(sys, applied) && k < |sys.runners|
    ensures SystemInv(Happen(sys, Dies(k)), applied)
  {
    assert RunnerInv(sys.runners[k], applied, sys.db.tracked);
    assert sys.db.(tracked := sys.db.tracked) == sys.db;
    ReadingKeepsInv(sys, k, applied, sys.db.tracked, Ended, if sys.holder == Some(k) then None else sys.holder);
  }

  lemma HappeningKeepsInv(sys: System, h: Happening, applied: seq<Migration>) returns (later: seq<Migration>)
    requires SystemInv(sys, applied) && Allowed(sys, h)
    ensures SystemInv(Happen(sys, h), later) && applied <= later
  {
    later := applied;
    match h {
      case Deploys(list) => DeployingKeepsInv(sys, list, applied);
      case Advances(k, ending) => later := AdvanceKeepsInv(sys, k, ending, applied);
      case Dies(k) => DyingKeepsInv(sys, k, applied);
      case SomebodyCreatesATable =>
    }
  }

  lemma DeployedIsCollisionFree(sys: System, list: seq<Migration>, applied: seq<Migration>)
    requires SystemInv(sys, applied) && Allowed(sys, Deploys(list))
    ensures CollisionFree(list, applied)
  {
    if applied != [] {
      var j :| 0 <= j < |sys.runners| && applied <= sys.runners[j].list;
      assert CollisionFree(sys.runners[j].list, list);
    }
  }

  lemma SameListIsCollisionFree(list: seq<Migration>)
    requires Sorted(list)
    ensures CollisionFree(list, list)
  {
    forall i, j | 0 <= i < |list| && 0 <= j < |list| && RecordOf(list[i]) == RecordOf(list[j])
      ensures list[i] == list[j]
    {
      var a, b := list[i].version, list[j].version;
      assert (i < j ==> a < b) && (j < i ==> b < a);
    }
  }

  /** What every run has left behind. */
  lemma {:induction false} RunsKeepInv(happenings: seq<Happening>) returns (applied: seq<Migration>)
    requires Run(happenings).Some?
    ensures SystemInv(Run(happenings).value, applied)
  {
    if happenings == [] {
      applied := [];
    } else {
      var init, last := happenings[..|happenings| - 1], happenings[|happenings| - 1];
      var before := RunsKeepInv(init);
      applied := HappeningKeepsInv(Run(init).value, last, before);
    }
  }

  // ----- the promises

  /**
   * After any concurrent, failed or interrupted runs, the history and the schema are the records and
   * the texts of one and the same initial segment of a deployed list, in version order, once each.
   */
  lemma HistoryIsAPrefix(happenings: seq<Happening>) returns (applied: seq<Migration>)
    requires Run(happenings).Some?
    ensures var sys := Run(happenings).value;
            && sys.db.history == Records(applied) && sys.db.schema == Texts(applied)
            && ComesFrom(sys.runners, applied)
            && Sorted(applied)
  {
    applied := RunsKeepInv(happenings);
    var sys := Run(happenings).value;
    if applied != [] {
      var k :| 0 <= k < |sys.runners| && applied <= sys.runners[k].list;
      assert RunnerInv(sys.runners[k], applied, sys.db.tracked);
      assert applied == sys.runners[k].list[..|applied|];
    }
  }

  /** A run that succeeded has its whole list in the database; with one list deployed, nothing else. */
  lemma SuccessMeansComplete(happenings: seq<Happening>, k: nat)
    requires Run(happenings).Some? && k < |Run(happenings).value.runners|
    requires Run(happenings).value.runners[k].phase == Succeeded
    ensures var (db, list) := (Run(happenings).value.db, Run(happenings).value.runners[k].list);
            && db.tracked && Records(list) <= db.history && Texts(list) <= db.schema
            && ((forall l | 0 <= l < |Run(happenings).value.runners| :: Run(happenings).value.runners[l].list == list) ==>
                 db.history == Records(list) && db.schema == Texts(list))
  {
    var applied := RunsKeepInv(happenings);
    var sys := Run(happenings).value;
    var list := sys.runners[k].list;
    assert RunnerInv(sys.runners[k], applied, sys.db.tracked);
    assert forall i | 0 <= i < |list| :: applied[i] == list[i];
    if (forall l | 0 <= l < |sys.runners| :: sys.runners[l].list == list) && applied != [] {
      var j :| 0 <= j < |sys.runners| && applied <= sys.runners[j].list;
      assert applied == list;
    }
  }

  /** Whatever happens later, what is applied stays applied, in place. */
  lemma {:induction false} AppliedStays(happenings: seq<Happening>, more: seq<Happening>)
    requires Run(happenings + more).Some?
    ensures Run(happenings).Some?
    ensures Run(happenings).value.db.history <= Run(happenings + more).value.db.history
    ensures Run(happenings).value.db.schema <= Run(happenings + more).value.db.schema
    decreases |more|
  {
    if more == [] {
      assert happenings + more == happenings;
    } else {
      var n := |more| - 1;
      assert (happenings + more)[..|happenings + more| - 1] == happenings + more[..n];
      AppliedStays(happenings, more[..n]);
    }
  }

  /** Only one run at a time works on the database. */
  lemma RunsAreExclusive(happenings: seq<Happening>, k: nat, l: nat)
    requires Run(happenings).Some?
    requires k < |Run(happenings).value.runners| && l < |Run(happenings).value.runners|
    requires HoldsLock(Run(happenings).value.runners[k].phase) && HoldsLock(Run(happenings).value.runners[l].phase)
    ensures k == l
  {
    var applied := RunsKeepInv(happenings);
  }

  // ----- the run itself

  lemma OneMore(ms: seq<Migration>, first: nat, i: nat)
    requires first <= i < |ms|
    ensures Records(ms)[..i + 1] == Records(ms)[..i] + [RecordOf(ms[i])]
    ensures forall before: seq<string> ::
              before + Texts(ms)[first..i] + [ms[i].sql] == before + Texts(ms)[first..i + 1]
  {
    assert Texts(ms)[first..i + 1] == Texts(ms)[first..i] + [ms[i].sql];
  }

  /** A connection to the database, with the advisory lock held. */
  class Connection {
    var tracked: bool
    var foreign: bool
    var history: seq<Record>
    var schema: seq<string>

    /** One migration and its record in one transaction; `fails` says that the database refuses it. */
    method Apply(m: Migration, fails: bool) returns (ok: bool)
      modifies this`history, this`schema
      ensures ok == !fails
      ensures history == if ok then old(history) + [RecordOf(m)] else old(history)
      ensures schema == if ok then old(schema) + [m.sql] else old(schema)
    {
      if fails {
        return false;
      }
      schema := schema + [m.sql];
      history := history + [RecordOf(m)];
      ok := true;
    }

    /** Compares the history with the list, row by row. */
    method CheckHistory(ms: seq<Migration>) returns (applied: nat, ok: bool)
      ensures ok <==> history <= Records(ms)
      ensures ok ==> applied == |history|
    {
      applied := 0;
      for i := 0 to |history|
        invariant applied == i <= |ms|
        invariant history[..i] == Records(ms)[..i]
      {
        if applied >= |ms| || history[i] != RecordOf(ms[applied]) {
          assert i < |ms| ==> history[i] != Records(ms)[i];
          return applied, false;
        }
        applied := applied + 1;
      }
      assert history == Records(ms)[..|history|];
      ok := true;
    }

    /** Applies the migrations from `first` on, up to the first that fails. */
    method ApplyFrom(ms: seq<Migration>, first: nat, failing: set<int>) returns (ok: bool)
      requires first <= |ms| && history == Records(ms)[..first]
      modifies this`history, this`schema
      ensures first <= |history| <= |ms| && history == Records(ms)[..|history|]
      ensures schema == old(schema) + Texts(ms)[first..|history|]
      ensures ok <==> forall i | first <= i < |ms| :: ms[i].version !in failing
      ensures !ok ==> |history| < |ms| && ms[|history|].version in failing
      ensures ok ==> |history| == |ms|
    {
      for i := first to |ms|
        invariant |history| == i && history == Records(ms)[..i]
        invariant schema == old(schema) + Texts(ms)[first..i]
        invariant forall j | first <= j < i :: ms[j].version !in failing
      {
        ok := Apply(ms[i], ms[i].version in failing);
        if !ok {
          return;
        }
        OneMore(ms, first, i);
      }
      ok := true;
    }

    /**
     * Succeeds exactly when the database is tracked or empty, its history is an unchanged prefix of the
     * list, and no remaining migration fails; stops right before the first one that does.
     */
    method Run(ms: seq<Migration>, failing: set<int>) returns (ok: bool)
      modifies this
      ensures foreign == old(foreign)
      ensures var usable := old(tracked) || (!old(foreign) && old(schema) == [] && old(history) == []);
              var prefix := old(history) <= Records(ms);
              && (ok <==> usable && prefix && forall i | |old(history)| <= i < |ms| :: ms[i].version !in failing)
              && (usable ==> tracked)
              && (!usable || !prefix ==> history == old(history) && schema == old(schema))
              && (usable && prefix ==>
                   && |old(history)| <= |history| <= |ms|
                   && history == Records(ms)[..|history|]
                   && schema == old(schema) + Texts(ms)[|old(history)|..|history|]
                   && (!ok ==> |history| < |ms| && ms[|history|].version in failing))
    {
      if !tracked {
        if foreign || schema != [] || history != [] {
          return false;
        }
        tracked := true;
      }
      var applied, isPrefix := CheckHistory(ms);
      if !isPrefix {
        return false;
      }
      ok := ApplyFrom(ms, applied, failing);
    }
  }
}
