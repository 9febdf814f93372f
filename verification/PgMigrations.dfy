/**
 The PostgreSQL migration runner: each migration and its history row commit in one transaction. A
 transaction may be rolled back, and a commit may take effect although its answer is lost.
 */
module PgMigrations {
  import opened Options
  import opened Migrations
  import MigrationRunner

  /** Executing a migration inside a transaction; `None` is an error. */
  type Exec = (Schema, Migration) -> Option<Schema>

  datatype Commit = Committed | CommittedUnheard | RolledBack

  datatype PgWorld = PgWorld(schema: Schema, history: map<int, string>, commits: seq<Commit>)

  function NextCommit(w: PgWorld): Commit { if w.commits == [] then Committed else w.commits[0] }

  function PastCommit(w: PgWorld): PgWorld { if w.commits == [] then w else w.(commits := w.commits[1..]) }

  /** One iteration of the loop of `Apply`. */
  function ApplyFile(exec: Exec, w: PgWorld, m: Migration): (PgWorld, bool) {
    if m.version in w.history then (w, w.history[m.version] == m.digest)
    else if !IsNext(w.history.Keys, m.version) then (w, false)
    else match exec(w.schema, m)
      case None => (w, false)
      case Some(schema) =>
        ( if NextCommit(w).RolledBack? then PastCommit(w)
          else PastCommit(w).(schema := schema, history := w.history[m.version := m.digest]),
          NextCommit(w).Committed?)
  }

  function ApplyAll(exec: Exec, w: PgWorld, files: seq<Migration>, i: nat): (PgWorld, bool)
    requires i <= |files|
    decreases |files| - i
  {
    if i == |files| then (w, true)
    else
      var (w1, ok) := ApplyFile(exec, w, files[i]);
      if ok then ApplyAll(exec, w1, files, i + 1) else (w1, false)
  }

  predicate ValidVersions(history: map<int, string>, files: seq<Migration>) {
    files != [] && forall v <- history :: 1 <= v <= files[|files| - 1].version
  }

  function PgApply(exec: Exec, w: PgWorld, files: seq<Migration>): (PgWorld, bool) {
    if !ValidVersions(w.history, files) then (w, false) else ApplyAll(exec, w, files, 0)
  }

  /** `Verify`'s check; a missing row reads as an empty digest. */
  predicate PgVerified(history: map<int, string>, files: seq<Migration>) {
    && |history| == |files|
    && forall i | 0 <= i < |files| ::
      (if files[i].version in history then history[files[i].version] else "") == files[i].digest
  }

  // ---------------------------------------------------------------------------------------------
  // Every run
  // ---------------------------------------------------------------------------------------------

  /** The schema after the first `j` files, if a clean run gets there. */
  function CleanFiles(exec: Exec, initial: Schema, files: seq<Migration>, j: nat): Option<Schema>
    requires j <= |files|
  {
    if j == 0 then Some(initial)
    else match CleanFiles(exec, initial, files, j - 1)
      case None => None
      case Some(schema) => exec(schema, files[j - 1])
  }

  predicate IsRecorded(files: seq<Migration>, history: map<int, string>, v: int) {
    1 <= v <= |files| && files[v - 1].version == v && v in history && history[v] == files[v - 1].digest
  }

  /** The history holds exactly the first `j` files, and the schema is what a clean run of them gives. */
  ghost predicate PgInv(exec: Exec, initial: Schema, files: seq<Migration>, w: PgWorld, j: nat) {
    && j <= |files|
    && (forall v | 1 <= v <= j :: IsRecorded(files, w.history, v))
    && (forall v <- w.history :: 1 <= v <= j)
    && CleanFiles(exec, initial, files, j) == Some(w.schema)
  }

  lemma FileKeepsInv(exec: Exec, initial: Schema, files: seq<Migration>, w: PgWorld, j: nat, w1: PgWorld, ok: bool)
    requires Ordered(files) && PgInv(exec, initial, files, w, j) && j < |files|
    requires (w1, ok) == ApplyFile(exec, w, files[j])
    ensures PgInv(exec, initial, files, w1, j) || PgInv(exec, initial, files, w1, j + 1)
    ensures ok ==> PgInv(exec, initial, files, w1, j + 1)
    ensures w.commits == [] && files[j].version == j + 1 && exec(w.schema, files[j]).Some? ==> ok && w1.commits == []
  {
    var m := files[j];
    if j > 0 {
      assert IsRecorded(files, w.history, j);
      assert files[j - 1].version < m.version;
    }
    assert m.version !in w.history;
    assert IsNext(w.history.Keys, m.version) <==> m.version == j + 1;
    if w1.history != w.history {
      forall v | 1 <= v <= j + 1 ensures IsRecorded(files, w1.history, v) {
        assert v <= j ==> IsRecorded(files, w.history, v);
      }
    }
  }

  lemma {:induction false} AllKeepInv(exec: Exec, initial: Schema, files: seq<Migration>, w: PgWorld, i: nat, j: nat,
                                      w1: PgWorld, ok: bool)
    requires Ordered(files) && PgInv(exec, initial, files, w, j) && i <= j
    requires (w1, ok) == ApplyAll(exec, w, files, i)
    ensures PgSafe(exec, initial, files, w1) && (ok ==> PgInv(exec, initial, files, w1, |files|))
    ensures w.commits == [] && Sequential(files) && CleanFiles(exec, initial, files, |files|).Some? ==> ok
    decreases |files| - i
  {
    if i < |files| {
      hide Ordered, Sequential;
      if i < j {
        assert IsRecorded(files, w.history, i + 1);
        AllKeepInv(exec, initial, files, w, i + 1, j, w1, ok);
      } else {
        var (w', ok') := ApplyFile(exec, w, files[j]);
        FileKeepsInv(exec, initial, files, w, j, w', ok');
        if CleanFiles(exec, initial, files, |files|).Some? {
          CleanUpTo(exec, initial, files, j + 1, |files|);
        }
        FileIsNumbered(files, j);
        if ok' {
          AllKeepInv(exec, initial, files, w', i + 1, j + 1, w1, ok);
        }
      }
    }
  }

  lemma FileIsNumbered(files: seq<Migration>, j: nat)
    requires j < |files|
    ensures Sequential(files) ==> files[j].version == j + 1
  {
  }

  /** A clean run that reaches `n` files passed every earlier one. */
  lemma {:induction false} CleanUpTo(exec: Exec, initial: Schema, files: seq<Migration>, j: nat, n: nat)
    requires j <= n <= |files| && CleanFiles(exec, initial, files, n).Some?
    ensures CleanFiles(exec, initial, files, j).Some?
  {
    if j < n {
      CleanUpTo(exec, initial, files, j, n - 1);
    }
  }

  ghost predicate PgSafe(exec: Exec, initial: Schema, files: seq<Migration>, w: PgWorld) {
    exists j :: PgInv(exec, initial, files, w, j)
  }

  function RunsPg(exec: Exec, initial: Schema, files: seq<Migration>, runs: seq<seq<Commit>>): PgWorld {
    if runs == [] then PgWorld(initial, map[], [])
    else
      PgApply(exec, RunsPg(exec, initial, files, runs[..|runs| - 1]).(commits := runs[|runs| - 1]), files).0
  }

  /** After any runs, however their commits went, the schema is exactly what the recorded migrations give. */
  lemma {:induction false} RecordedIsApplied(exec: Exec, initial: Schema, files: seq<Migration>, runs: seq<seq<Commit>>)
    requires Ordered(files)
    ensures PgSafe(exec, initial, files, RunsPg(exec, initial, files, runs))
  {
    hide Ordered;
    if runs == [] {
      assert PgInv(exec, initial, files, PgWorld(initial, map[], []), 0);
    } else {
      RecordedIsApplied(exec, initial, files, runs[..|runs| - 1]);
      var w := RunsPg(exec, initial, files, runs[..|runs| - 1]);
      var j :| PgInv(exec, initial, files, w, j);
      var w' := w.(commits := runs[|runs| - 1]);
      assert PgInv(exec, initial, files, w', j);
      if ValidVersions(w'.history, files) {
        var (w1, ok) := ApplyAll(exec, w', files, 0);
        AllKeepInv(exec, initial, files, w', 0, j, w1, ok);
      }
    }
  }

  /** A successful run leaves the clean schema of all files and a history that `Verify` accepts. */
  lemma PgSuccessIsComplete(exec: Exec, initial: Schema, files: seq<Migration>, w: PgWorld)
    requires Ordered(files) && PgSafe(exec, initial, files, w) && PgApply(exec, w, files).1
    ensures CleanFiles(exec, initial, files, |files|) == Some(PgApply(exec, w, files).0.schema)
    ensures PgVerified(PgApply(exec, w, files).0.history, files)
  {
    hide Ordered;
    var j :| PgInv(exec, initial, files, w, j);
    var (w1, ok) := ApplyAll(exec, w, files, 0);
    AllKeepInv(exec, initial, files, w, 0, j, w1, ok);
    AllRecorded(files, w1.history);
  }

  lemma AllRecorded(files: seq<Migration>, history: map<int, string>)
    requires forall v | 1 <= v <= |files| :: IsRecorded(files, history, v)
    requires forall v <- history :: 1 <= v <= |files|
    ensures PgVerified(history, files) && Sequential(files)
  {
    forall i | 0 <= i < |files|
      ensures files[i].version == i + 1 && files[i].version in history && history[files[i].version] == files[i].digest
    {
      assert IsRecorded(files, history, i + 1);
    }
    RecordedCount(files, history, |files|);
  }

  lemma {:induction false} RecordedAreSkipped(exec: Exec, files: seq<Migration>, w: PgWorld, i: nat)
    requires i <= |files| && forall v | 1 <= v <= |files| :: IsRecorded(files, w.history, v)
    ensures ApplyAll(exec, w, files, i) == (w, true)
    decreases |files| - i
  {
    if i < |files| {
      assert IsRecorded(files, w.history, i + 1);
      RecordedAreSkipped(exec, files, w, i + 1);
    }
  }

  /** After any runs `Verify` accepts exactly the databases `Apply` leaves alone, and these have the clean schema of
      all files. */
  lemma PgVerifyAcceptsExactly(exec: Exec, initial: Schema, files: seq<Migration>, w: PgWorld)
    requires Ordered(files) && files != [] && PgSafe(exec, initial, files, w)
    ensures PgVerified(w.history, files) <==> PgApply(exec, w, files) == (w, true)
    ensures PgVerified(w.history, files) ==> CleanFiles(exec, initial, files, |files|) == Some(w.schema)
  {
    hide Ordered;
    if PgVerified(w.history, files) {
      var j :| PgInv(exec, initial, files, w, j);
      assert j == |files| by { RecordedCount(files, w.history, j); }
      RecordedAreSkipped(exec, files, w, 0);
      assert IsRecorded(files, w.history, |files|);
    }
    if PgApply(exec, w, files) == (w, true) {
      PgSuccessIsComplete(exec, initial, files, w);
    }
  }

  lemma RecordedCount(files: seq<Migration>, history: map<int, string>, j: nat)
    requires forall v | 1 <= v <= j :: IsRecorded(files, history, v)
    requires forall v <- history :: 1 <= v <= j
    ensures |history| == j
  {
    forall v ensures v in history.Keys <==> 1 <= v <= j {
      assert 1 <= v <= j ==> IsRecorded(files, history, v);
    }
    KeysTo(history.Keys, j);
    assert |history| == |history.Keys|;
  }

  /** Without faults a run succeeds exactly when the files are numbered 1, 2, 3, ... and each can be executed. */
  lemma PgRecoverySucceeds(exec: Exec, initial: Schema, files: seq<Migration>, w: PgWorld)
    requires Ordered(files) && PgSafe(exec, initial, files, w) && w.commits == []
    ensures PgApply(exec, w, files).1 <==>
      files != [] && Sequential(files) && CleanFiles(exec, initial, files, |files|).Some?
  {
    hide Ordered;
    var j :| PgInv(exec, initial, files, w, j);
    var (w1, ok) := ApplyAll(exec, w, files, 0);
    AllKeepInv(exec, initial, files, w, 0, j, w1, ok);
    if ok {
      AllRecorded(files, w1.history);
    }
    if files != [] {
      FileIsNumbered(files, |files| - 1);
    }
  }

  // ---------------------------------------------------------------------------------------------
  // The loop
  // ---------------------------------------------------------------------------------------------

  class PgConnection {
    const exec: Exec
    var schema: Schema
    var rows: map<int, string>
    var commits: seq<Commit>

    function View(): PgWorld
      reads this
    {
      PgWorld(schema, rows, commits)
    }

    constructor (exec: Exec, w: PgWorld)
      ensures View() == w && this.exec == exec
    {
      this.exec, schema, rows, commits := exec, w.schema, w.history, w.commits;
    }

    /** `Apply` once it holds the lock; `history` is its own copy of the table. */
    method ApplyMigrations(files: seq<Migration>) returns (ok: bool)
      modifies this
      ensures (View(), ok) == PgApply(exec, old(View()), files)
    {
      hide ApplyFile;
      var history := rows;
      if !ValidVersions(history, files) {
        return false;
      }
      for i := 0 to |files|
        invariant history == rows && forall v <- rows :: v >= 1
        invariant ApplyAll(exec, View(), files, i) == ApplyAll(exec, old(View()), files, 0)
      {
        ok, history := ApplyOneFile(history, files[i]);
        if !ok {
          return false;
        }
      }
      return true;
    }

    method ApplyOneFile(history: map<int, string>, m: Migration) returns (ok: bool, history': map<int, string>)
      requires history == rows && forall v <- rows :: v >= 1
      modifies this
      ensures (View(), ok) == ApplyFile(exec, old(View()), m)
      ensures ok ==> history' == rows && forall v <- rows :: v >= 1
    {
      history' := history;
      if m.version in history {
        return history[m.version] == m.digest, history;
      }
      var next := MigrationRunner.NextVersion(history.Keys);
      if m.version != next {
        return false, history;
      }
      var after := exec(schema, m);
      if after.None? {
        return false, history;
      }
      var commit := Committed;
      if commits != [] {
        commit, commits := commits[0], commits[1..];
      }
      if !commit.RolledBack? {
        schema := after.value;
        rows := rows[m.version := m.digest];
      }
      if !commit.Committed? {
        return false, history;
      }
      history' := history[m.version := m.digest];
      return true, history';
    }
  }
}
