/**
 The migration runner of internal/store/store.go over an abstract schema. A
 statement's effect is an arbitrary function on schemas; a failing database
 operation is placed by a budget, the number of operations of one Open that
 succeed before the next one fails (Open returns at its first failure, so one
 number covers every failure point, and a crash is a failure at that point).
 */
module Migrations {
  import opened Seqs
  import Splitter

  datatype File = File(name: string, raw: string)

  /** A file as the database sees it: its statements. */
  datatype Migration = Migration(name: string, stmts: seq<string>)

  ghost function Parsed(files: seq<File>): seq<Migration> {
    seq(|files|, i requires 0 <= i < |files| => ParsedFile(files[i]))
  }

  ghost function ParsedFile(f: File): Migration {
    Migration(f.name, Splitter.SplitScript(f.raw))
  }

  /** The recorded names in insertion order, and the schema. */
  datatype Db<S> = Db(recorded: seq<string>, schema: S)

  /** Result of one Open on the database it found. */
  datatype Outcome<S> = Outcome(db: Db<S>, ok: bool)

  ghost function RunStatements<S>(exec: (S, string) -> S, s: S, stmts: seq<string>): S {
    if stmts == [] then s else RunStatements(exec, exec(s, stmts[0]), stmts[1..])
  }

  ghost function RunOne<S>(exec: (S, string) -> S, s: S, f: Migration): S {
    RunStatements(exec, s, f.stmts)
  }

  /** Begin, every statement, the schema_migrations insert, commit. */
  ghost function Cost(f: Migration): nat {
    |f.stmts| + 3
  }

  /** The schema after running the first n files in order, with no failures. */
  ghost function RunFiles<S>(exec: (S, string) -> S, s: S, files: seq<Migration>, n: nat): S
    requires n <= |files|
  {
    if n == 0 then s else RunOne(exec, RunFiles(exec, s, files, n - 1), files[n - 1])
  }

  ghost function Names(files: seq<Migration>): seq<string> {
    seq(|files|, i requires 0 <= i < |files| => files[i].name)
  }

  /** The cost of files i to m. */
  ghost function TotalCost(files: seq<Migration>, i: nat, m: nat): nat
    requires i <= m <= |files|
    decreases m - i
  {
    if i == m then 0 else Cost(files[i]) + TotalCost(files, i + 1, m)
  }

  /** The database after one more file. */
  ghost function Applied<S>(exec: (S, string) -> S, db: Db<S>, f: Migration): Db<S> {
    Db(db.recorded + [f.name], RunOne(exec, db.schema, f))
  }

  /** The loop of migrate over files i to m, skipping the recorded ones. */
  ghost function ApplyPending<S>(exec: (S, string) -> S, db: Db<S>, files: seq<Migration>, i: nat, m: nat, budget: nat): Outcome<S>
    requires i <= m <= |files|
    decreases m - i
  {
    if i == m then Outcome(db, true)
    else if files[i].name in db.recorded then ApplyPending(exec, db, files, i + 1, m, budget)
    else if budget < Cost(files[i]) then Outcome(db, false)
    else ApplyPending(exec, Applied(exec, db, files[i]), files, i + 1, m, budget - Cost(files[i]))
  }

  /** One Open of a binary shipping the first m files: the schema_migrations table
      is created and read first. */
  ghost function OpenOnce<S>(exec: (S, string) -> S, db: Db<S>, files: seq<Migration>, m: nat, budget: nat): Outcome<S>
    requires m <= |files|
  {
    if budget < 2 then Outcome(db, false) else ApplyPending(exec, db, files, 0, m, budget - 2)
  }

  /** Continuing with file i ends in the outcome whole. */
  ghost predicate LeadsTo<S>(exec: (S, string) -> S, db: Db<S>, files: seq<Migration>, i: nat, budget: nat, whole: Outcome<S>)
    requires i <= |files|
  {
    ApplyPending(exec, db, files, i, |files|, budget) == whole
  }

  /** One turn of the loop. */
  lemma NextPending<S>(exec: (S, string) -> S, db: Db<S>, files: seq<Migration>, i: nat, budget: nat, whole: Outcome<S>)
    requires i < |files| && LeadsTo(exec, db, files, i, budget, whole)
    ensures var f := files[i];
            if f.name in db.recorded then LeadsTo(exec, db, files, i + 1, budget, whole)
            else if budget < Cost(f) then whole == Outcome(db, false)
            else LeadsTo(exec, Applied(exec, db, f), files, i + 1, budget - Cost(f), whole)
  {
  }

  /** Both lists answer alike for the files from i on. */
  ghost predicate AgreeFrom(files: seq<Migration>, i: nat, a: seq<string>, b: seq<string>) {
    forall j :: i <= j < |files| ==> (files[j].name in a <==> files[j].name in b)
  }

  lemma AgreeNext(files: seq<Migration>, i: nat, a: seq<string>, b: seq<string>)
    requires NoDup(Names(files)) && i < |files| && AgreeFrom(files, i, a, b)
    ensures files[i].name in a <==> files[i].name in b
    ensures AgreeFrom(files, i + 1, a, b) && AgreeFrom(files, i + 1, a, b + [files[i].name])
  {
    forall j | i < j < |files| ensures files[j].name != files[i].name {
      assert Names(files)[i] != Names(files)[j];
    }
  }

  class Database<S> {
    const exec: (S, string) -> S
    var recorded: seq<string>
    var schema: S

    constructor (exec: (S, string) -> S, schema: S)
      ensures this.exec == exec && Contents() == Db([], schema)
    {
      this.exec, this.schema, this.recorded := exec, schema, [];
    }

    ghost function Contents(): Db<S>
      reads this
    {
      Db(recorded, schema)
    }

    /** applyMigration: one transaction, so a failure anywhere leaves no trace. */
    method ApplyMigration(name: string, raw: string, budget: nat) returns (ok: bool, left: nat)
      modifies this
      ensures var f := Migration(name, Splitter.SplitScript(raw));
              && (ok <==> budget >= |f.stmts| + 3 && name !in old(recorded))
              && (ok ==> left == budget - |f.stmts| - 3)
              && Contents() == if ok then Applied(exec, old(Contents()), f) else old(Contents())
    {
      var stmts := Splitter.Statements(raw);
      ok, left := Transact(name, stmts, budget);
    }

    /** The transaction on the statements of a file. */
    method Transact(name: string, stmts: seq<string>, budget: nat) returns (ok: bool, left: nat)
      modifies this
      ensures var f := Migration(name, stmts);
              && (ok <==> budget >= |f.stmts| + 3 && name !in old(recorded))
              && (ok ==> left == budget - |f.stmts| - 3)
              && Contents() == if ok then Applied(exec, old(Contents()), f) else old(Contents())
    {
      ok, left := false, budget;
      if left == 0 {
        return; // begin failed
      }
      left := left - 1;
      var tx := schema;
      var i := 0;
      while i < |stmts|
        invariant 0 <= i <= |stmts| && left == budget - 1 - i
        invariant RunStatements(exec, schema, stmts) == RunStatements(exec, tx, stmts[i..])
        invariant Contents() == old(Contents())
      {
        if left == 0 {
          return; // rollback
        }
        left := left - 1;
        assert stmts[i..][0] == stmts[i] && stmts[i..][1..] == stmts[i + 1..];
        tx := exec(tx, stmts[i]);
        i := i + 1;
      }
      if left == 0 || name in recorded {
        return; // insert failed: I/O or primary key
      }
      left := left - 1;
      if left == 0 {
        return; // commit failed
      }
      left := left - 1;
      recorded, schema := recorded + [name], tx;
      ok := true;
    }

    /** One turn of the loop of migrate, on file i. */
    method ApplyUnlessRecorded(
      f: File, ghost ms: seq<Migration>, ghost i: nat, applied: seq<string>, budget: nat, ghost whole: Outcome<S>)
      returns (ok: bool, left: nat)
      requires NoDup(Names(ms)) && i < |ms| && ms[i] == ParsedFile(f)
      requires LeadsTo(exec, Contents(), ms, i, budget, whole) && AgreeFrom(ms, i, applied, recorded)
      modifies this
      ensures ok ==> LeadsTo(exec, Contents(), ms, i + 1, left, whole) && AgreeFrom(ms, i + 1, applied, recorded)
      ensures !ok ==> whole == Outcome(Contents(), false)
    {
      AgreeNext(ms, i, applied, recorded);
      NextPending(exec, Contents(), ms, i, budget, whole);
      if f.name in applied {
        return true, budget;
      }
      ok, left := ApplyMigration(f.name, f.raw, budget);
    }

    /** The loop of migrate, with the set of applied names read before it. */
    method ApplyAll(files: seq<File>, ghost ms: seq<Migration>, budget: nat) returns (ok: bool)
      requires ms == Parsed(files) && NoDup(Names(ms))
      modifies this
      ensures Outcome(Contents(), ok) == ApplyPending(exec, old(Contents()), ms, 0, |ms|, budget)
    {
      var left, applied := budget, recorded;
      ghost var whole := ApplyPending(exec, Contents(), ms, 0, |ms|, left);
      var i := 0;
      while i < |files|
        invariant 0 <= i <= |files| == |ms|
        invariant LeadsTo(exec, Contents(), ms, i, left, whole)
        invariant AgreeFrom(ms, i, applied, recorded)
      {
        assert ms[i] == ParsedFile(files[i]);
        ok, left := ApplyUnlessRecorded(files[i], ms, i, applied, left, whole);
        if !ok {
          return;
        }
        i := i + 1;
      }
      ok := true;
    }

    /** migrate: creating and reading schema_migrations come first. */
    method Migrate(files: seq<File>, budget: nat) returns (ok: bool)
      requires NoDup(Names(Parsed(files)))
      modifies this
      ensures Outcome(Contents(), ok) == OpenOnce(exec, old(Contents()), Parsed(files), |files|, budget)
    {
      if budget < 2 {
        return false;
      }
      ok := ApplyAll(files, Parsed(files), budget - 2);
    }
  }

  // ---------- any history of opens ----------

  /** With k names recorded, exactly the first k files have been applied, in order. */
  ghost predicate AtPrefix<S>(exec: (S, string) -> S, db: Db<S>, init: S, all: seq<Migration>) {
    var k := |db.recorded|;
    && k <= |all|
    && db.recorded == Names(all)[..k]
    && db.schema == RunFiles(exec, init, all, k)
  }

  lemma AdvancePrefix<S>(exec: (S, string) -> S, db: Db<S>, init: S, all: seq<Migration>)
    requires AtPrefix(exec, db, init, all) && |db.recorded| < |all|
    ensures AtPrefix(exec, Applied(exec, db, all[|db.recorded|]), init, all)
  {
    var k := |db.recorded|;
    assert Names(all)[..k + 1] == Names(all)[..k] + [all[k].name];
  }

  /** Recorded files are skipped. */
  lemma {:induction false} SkipRecorded<S>(
    exec: (S, string) -> S, db: Db<S>, init: S, all: seq<Migration>, i: nat, m: nat, budget: nat)
    requires AtPrefix(exec, db, init, all) && i <= m <= |all| && i <= |db.recorded|
    ensures var k := |db.recorded|;
            ApplyPending(exec, db, all, i, m, budget)
            == if k <= m then ApplyPending(exec, db, all, k, m, budget) else Outcome(db, true)
    decreases m - i
  {
    if i < |db.recorded| && i < m {
      assert db.recorded[i] == all[i].name;
      SkipRecorded(exec, db, init, all, i + 1, m, budget);
    }
  }

  lemma NotYetRecorded<S>(exec: (S, string) -> S, db: Db<S>, init: S, all: seq<Migration>)
    requires NoDup(Names(all)) && AtPrefix(exec, db, init, all) && |db.recorded| < |all|
    ensures all[|db.recorded|].name !in db.recorded
  {
    forall i | 0 <= i < |db.recorded| ensures db.recorded[i] != all[|db.recorded|].name {
      assert db.recorded[i] == Names(all)[i] != Names(all)[|db.recorded|];
    }
  }

  /** The remaining files are applied one by one while the budget lasts. */
  lemma {:induction false} ApplyPendingReaches<S>(
    exec: (S, string) -> S, db: Db<S>, init: S, all: seq<Migration>, m: nat, budget: nat)
    requires NoDup(Names(all)) && AtPrefix(exec, db, init, all) && |db.recorded| <= m <= |all|
    ensures var k := |db.recorded|;
            var r := ApplyPending(exec, db, all, k, m, budget);
            && AtPrefix(exec, r.db, init, all)
            && k <= |r.db.recorded|
            && (r.ok ==> |r.db.recorded| == m)
            && (r.ok <==> budget >= TotalCost(all, k, m))
    decreases m - |db.recorded|
  {
    var k := |db.recorded|;
    if k < m {
      NotYetRecorded(exec, db, init, all);
      if budget >= Cost(all[k]) {
        AdvancePrefix(exec, db, init, all);
        ApplyPendingReaches(exec, Applied(exec, db, all[k]), init, all, m, budget - Cost(all[k]));
      }
    }
  }

  /** One Open in a history: a binary shipping the first `shipped` migrations. */
  datatype Open = Open(shipped: nat, budget: nat)

  ghost function Shipped(all: seq<Migration>, o: Open): (m: nat)
    ensures m <= |all|
  {
    if o.shipped <= |all| then o.shipped else |all|
  }

  ghost function AfterOpens<S>(exec: (S, string) -> S, init: S, all: seq<Migration>, opens: seq<Open>): Db<S> {
    if opens == [] then Db([], init)
    else
      var last := opens[|opens| - 1];
      OpenOnce(exec, AfterOpens(exec, init, all, opens[..|opens| - 1]), all, Shipped(all, last), last.budget).db
  }

  /** One Open never loses ground, ends at a prefix again, and succeeds exactly
      when its budget covers what is missing. */
  lemma OpenOnceReaches<S>(exec: (S, string) -> S, db: Db<S>, init: S, all: seq<Migration>, m: nat, budget: nat)
    requires NoDup(Names(all)) && AtPrefix(exec, db, init, all) && m <= |all|
    ensures var k := |db.recorded|;
            var r := OpenOnce(exec, db, all, m, budget);
            && AtPrefix(exec, r.db, init, all)
            && k <= |r.db.recorded|
            && (k >= m ==> r.db == db)
            && (r.ok ==> m <= |r.db.recorded| && (k <= m ==> |r.db.recorded| == m))
            && (r.ok <==> budget >= 2 && (k >= m || budget - 2 >= TotalCost(all, k, m)))
  {
    if budget >= 2 {
      SkipRecorded(exec, db, init, all, 0, m, budget - 2);
      if |db.recorded| <= m {
        ApplyPendingReaches(exec, db, init, all, m, budget - 2);
      }
    }
  }

  /** What a binary with fewer files does is what its own list says. */
  lemma {:induction false} ShippedPrefix<S>(
    exec: (S, string) -> S, db: Db<S>, all: seq<Migration>, i: nat, m: nat, budget: nat)
    requires i <= m <= |all|
    ensures ApplyPending(exec, db, all[..m], i, m, budget) == ApplyPending(exec, db, all, i, m, budget)
    decreases m - i
  {
    if i < m {
      ShippedPrefix(exec, db, all, i + 1, m, budget);
      if budget >= Cost(all[i]) {
        ShippedPrefix(exec, Applied(exec, db, all[i]), all, i + 1, m, budget - Cost(all[i]));
      }
    }
  }

  /** Safety over every history of opens, failing anywhere, by any mix of
      binaries: what is recorded is a prefix of the list, and the schema is
      exactly that prefix run in order. */
  lemma {:induction false} RecordedIsAlwaysAPrefix<S>(exec: (S, string) -> S, init: S, all: seq<Migration>, opens: seq<Open>)
    requires NoDup(Names(all))
    ensures AtPrefix(exec, AfterOpens(exec, init, all, opens), init, all)
  {
    if opens != [] {
      var n := |opens| - 1;
      RecordedIsAlwaysAPrefix(exec, init, all, opens[..n]);
      OpenOnceReaches(exec, AfterOpens(exec, init, all, opens[..n]), init, all, Shipped(all, opens[n]), opens[n].budget);
    }
  }

  /** A successful full open from any prefix reaches the whole list. */
  lemma FullOpenReachesAll<S>(exec: (S, string) -> S, db: Db<S>, init: S, all: seq<Migration>, budget: nat)
    requires NoDup(Names(all)) && AtPrefix(exec, db, init, all) && OpenOnce(exec, db, all, |all|, budget).ok
    ensures OpenOnce(exec, db, all, |all|, budget).db == Db(Names(all), RunFiles(exec, init, all, |all|))
  {
    OpenOnceReaches(exec, db, init, all, |all|, budget);
    assert Names(all)[..|all|] == Names(all);
  }

  /** After any history the next successful full open reaches the same database
      as one clean open of an empty database. */
  lemma SuccessfulOpenIsCleanOpen<S>(
    exec: (S, string) -> S, init: S, all: seq<Migration>, opens: seq<Open>, budget: nat, cleanBudget: nat)
    requires NoDup(Names(all))
    requires OpenOnce(exec, AfterOpens(exec, init, all, opens), all, |all|, budget).ok
    requires OpenOnce(exec, Db([], init), all, |all|, cleanBudget).ok
    ensures OpenOnce(exec, AfterOpens(exec, init, all, opens), all, |all|, budget).db
            == OpenOnce(exec, Db([], init), all, |all|, cleanBudget).db
            == Db(Names(all), RunFiles(exec, init, all, |all|))
  {
    RecordedIsAlwaysAPrefix(exec, init, all, opens);
    FullOpenReachesAll(exec, AfterOpens(exec, init, all, opens), init, all, budget);
    RecordedIsAlwaysAPrefix(exec, init, all, []);
    FullOpenReachesAll(exec, Db([], init), init, all, cleanBudget);
  }

  /** Once a full open has succeeded, no further open changes anything,
      whatever it ships and wherever it fails. */
  lemma LaterOpensChangeNothing<S>(
    exec: (S, string) -> S, init: S, all: seq<Migration>, opens: seq<Open>, budget: nat, later: Open)
    requires NoDup(Names(all))
    requires OpenOnce(exec, AfterOpens(exec, init, all, opens), all, |all|, budget).ok
    ensures var db := OpenOnce(exec, AfterOpens(exec, init, all, opens), all, |all|, budget).db;
            OpenOnce(exec, db, all, Shipped(all, later), later.budget).db == db
  {
    var start := AfterOpens(exec, init, all, opens);
    RecordedIsAlwaysAPrefix(exec, init, all, opens);
    OpenOnceReaches(exec, start, init, all, |all|, budget);
    OpenOnceReaches(exec, OpenOnce(exec, start, all, |all|, budget).db, init, all, Shipped(all, later), later.budget);
  }

  /** After any history, an open fails only for want of successful operations:
      it succeeds exactly when its budget covers the files not yet applied. */
  lemma OpenSucceedsExactlyWhenPaid<S>(
    exec: (S, string) -> S, init: S, all: seq<Migration>, opens: seq<Open>, budget: nat)
    requires NoDup(Names(all))
    ensures var db := AfterOpens(exec, init, all, opens);
            && |db.recorded| <= |all|
            && (OpenOnce(exec, db, all, |all|, budget).ok <==> budget >= 2 + TotalCost(all, |db.recorded|, |all|))
  {
    RecordedIsAlwaysAPrefix(exec, init, all, opens);
    OpenOnceReaches(exec, AfterOpens(exec, init, all, opens), init, all, |all|, budget);
  }

  // ---------- what the schema is, statement by statement ----------

  /** The schemas s goes through when these statements are executed in order. */
  ghost predicate IsExecution<S>(exec: (S, string) -> S, ss: seq<S>, s: S, stmts: seq<string>) {
    && |ss| == |stmts| + 1
    && ss[0] == s
    && forall i :: 0 <= i < |stmts| ==> ss[i + 1] == exec(ss[i], stmts[i])
  }

  lemma {:induction false} StatementsExecute<S>(exec: (S, string) -> S, s: S, stmts: seq<string>) returns (ss: seq<S>)
    ensures IsExecution(exec, ss, s, stmts) && ss[|stmts|] == RunStatements(exec, s, stmts)
  {
    if stmts == [] {
      ss := [s];
    } else {
      var rest := StatementsExecute(exec, exec(s, stmts[0]), stmts[1..]);
      ss := [s] + rest;
      forall i | 0 <= i < |stmts| ensures ss[i + 1] == exec(ss[i], stmts[i]) {
        assert i > 0 ==> rest[i] == exec(rest[i - 1], stmts[1..][i - 1]);
      }
    }
  }

  lemma {:induction false} RunStatementsAppend<S>(exec: (S, string) -> S, s: S, a: seq<string>, b: seq<string>)
    ensures RunStatements(exec, s, a + b) == RunStatements(exec, RunStatements(exec, s, a), b)
  {
    if a == [] {
      assert a + b == b;
    } else {
      assert (a + b)[0] == a[0] && (a + b)[1..] == a[1..] + b;
      RunStatementsAppend(exec, exec(s, a[0]), a[1..], b);
    }
  }

  /** The statements of the first n files, in order. */
  ghost function FirstStatements(files: seq<Migration>, n: nat): seq<seq<string>>
    requires n <= |files|
  {
    seq(n, i requires 0 <= i < n => files[i].stmts)
  }

  lemma {:induction false} RunFilesRunsStatements<S>(exec: (S, string) -> S, s: S, files: seq<Migration>, n: nat)
    requires n <= |files|
    ensures RunFiles(exec, s, files, n) == RunStatements(exec, s, Flatten(FirstStatements(files, n)))
  {
    if n > 0 {
      var before, last := FirstStatements(files, n - 1), files[n - 1].stmts;
      RunFilesRunsStatements(exec, s, files, n - 1);
      assert FirstStatements(files, n) == before + [last];
      FlattenSnoc(before, last);
      RunStatementsAppend(exec, s, Flatten(before), last);
    }
  }

  /** After any history of opens, failing anywhere, the schema is the initial one
      with exactly the statements of the recorded files executed on it, each once
      and in order. */
  lemma SchemaIsTheRecordedStatements<S>(exec: (S, string) -> S, init: S, all: seq<Migration>, opens: seq<Open>)
    returns (ss: seq<S>)
    requires NoDup(Names(all))
    ensures var db := AfterOpens(exec, init, all, opens);
            && |db.recorded| <= |all| && db.recorded == Names(all)[..|db.recorded|]
            && var stmts := Flatten(FirstStatements(all, |db.recorded|));
               IsExecution(exec, ss, init, stmts) && ss[|stmts|] == db.schema
  {
    RecordedIsAlwaysAPrefix(exec, init, all, opens);
    var k := |AfterOpens(exec, init, all, opens).recorded|;
    RunFilesRunsStatements(exec, init, all, k);
    ss := StatementsExecute(exec, init, Flatten(FirstStatements(all, k)));
  }
}
