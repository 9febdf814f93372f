/** The runner's loops over a database connection, each equal to the run the reference describes. */
module MigrationRunner {
  import opened Migrations

  /** The runner's copy of the history agrees with the table, file names aside. */
  predicate Same(history: map<int, Row>, rows: map<int, Row>) {
    && history.Keys == rows.Keys
    && forall v <- rows :: history[v].(name := rows[v].name) == rows[v]
  }

  lemma SomeMember(s: set<int>)
    ensures s == {} || exists v :: v in s
  {
    if forall v :: v !in s {
      assert s == {};
    }
  }

  /** `nextMySQLVersion` and `nextVersion`: one more than the latest recorded version. */
  method NextVersion(recorded: set<int>) returns (next: int)
    ensures forall v :: IsNext(recorded, v) ==> v == next
    ensures (forall v <- recorded :: v >= 1) ==> IsNext(recorded, next)
  {
    var max, todo := 0, recorded;
    while todo != {}
      invariant todo <= recorded && max >= 0
      invariant forall v <- recorded :: v in todo || v <= max
      invariant max == 0 || max in recorded
      decreases todo
    {
      SomeMember(todo);
      var version :| version in todo;
      todo := todo - {version};
      if version > max {
        max := version;
      }
    }
    next := max + 1;
  }

  /** `validateMySQLHistory`. */
  method ValidateHistory(history: map<int, Row>, files: seq<Migration>) returns (valid: bool)
    ensures valid == ValidHistory(history, files)
  {
    if files == [] {
      return false;
    }
    var maxVersion, todo := files[|files| - 1].version, history.Keys;
    while todo != {}
      invariant todo <= history.Keys
      invariant forall v <- history :: v in todo || (1 <= v <= maxVersion && history[v].status != Unknown)
      decreases todo
    {
      SomeMember(todo);
      var version :| version in todo;
      todo := todo - {version};
      if version < 1 || version > maxVersion || history[version].status == Unknown {
        return false;
      }
    }
    return true;
  }

  class Connection {
    const engine: Engine
    var schema: Schema
    var rows: map<int, Row>
    var faults: seq<Fault>
    ghost var effects: seq<nat>

    ghost function View(): World
      reads this
    {
      World(schema, rows, effects, faults)
    }

    constructor (engine: Engine, w: World)
      ensures View() == w && this.engine == engine
    {
      this.engine, schema, rows, faults, effects := engine, w.schema, w.rows, w.faults, w.effects;
    }

    method TakeFault() returns (fault: Fault)
      modifies this`faults
      ensures fault == NextFault(old(View())) && View() == Past(old(View()))
    {
      if faults == [] {
        return Answered;
      }
      fault := faults[0];
      faults := faults[1..];
    }

    method WriteRows(table: map<int, Row>) returns (ok: bool)
      modifies this
      ensures (View(), ok) == Write(old(View()), table)
    {
      var fault := TakeFault();
      if fault.TakesEffect() {
        rows := table;
      }
      return fault.Answered?;
    }

    method Exec(ghost position: nat, statement: string) returns (heard: Heard)
      modifies this
      ensures (View(), heard) == Execute(engine, old(View()), position, statement)
    {
      var fault := TakeFault();
      var (after, reply) := engine.exec(schema, statement);
      if fault.TakesEffect() && Accepted(reply) {
        schema := after;
        effects := effects + [position];
      }
      match fault {
        case Answered => return if Accepted(reply) then Ok else Refused;
        case ErrorBefore => return Refused;
        case ErrorAfter => return Refused;
        case _ => return Gone;
      }
    }

    method ApplyMySqlStatement(history: map<int, Row>, m: Migration, index: nat, ghost base: nat)
      returns (ok: bool, history': map<int, Row>)
      requires Same(history, rows) && index < |m.statements|
      requires m.version in rows && rows[m.version].digest == m.digest
      modifies this
      ensures (View(), ok) == ApplyStatement(engine, old(View()), m, base, index)
      ensures ok ==> Same(history', rows) && rows.Keys == old(rows.Keys) && rows[m.version].digest == m.digest
    {
      history' := history;
      var heard := Exec(base + index, m.statements[index]);
      match heard {
        case Ok =>
          ok := WriteRows(Updated(rows, m.version, Applying, index + 1));
          if ok {
            history' := history[m.version := Row(m.name, m.digest, Applying, index + 1)];
          }
        case Refused =>
          var _ := WriteRows(Updated(rows, m.version, Failed, index));
          ok := false;
        case Gone =>
          ok := false;
      }
    }

    /** The loop over the statements from `from` on, and the closing record. */
    method RunStatements(history: map<int, Row>, m: Migration, from: nat, ghost base: nat)
      returns (ok: bool, history': map<int, Row>)
      requires Same(history, rows) && from <= |m.statements|
      requires m.version in rows && rows[m.version].digest == m.digest
      modifies this
      ensures (View(), ok) == ApplyFrom(engine, old(View()), m, base, from)
      ensures ok ==> Same(history', rows) && rows.Keys == old(rows.Keys)
    {
      history' := history;
      var index := from;
      while index < |m.statements|
        invariant from <= index <= |m.statements|
        invariant Same(history', rows) && rows.Keys == old(rows.Keys) && rows[m.version].digest == m.digest
        invariant ApplyFrom(engine, View(), m, base, index) == ApplyFrom(engine, old(View()), m, base, from)
      {
        ok, history' := ApplyMySqlStatement(history', m, index, base);
        if !ok {
          return false, history';
        }
        index := index + 1;
      }
      ok := WriteRows(Updated(rows, m.version, Applied, |m.statements|));
      if ok {
        history' := history'[m.version := Row(m.name, m.digest, Applied, |m.statements|)];
      }
    }

    method ApplyMigration(history: map<int, Row>, m: Migration, ghost base: nat)
      returns (ok: bool, history': map<int, Row>)
      requires Same(history, rows) && forall v <- rows :: v >= 1
      modifies this
      ensures (View(), ok) == ApplyOne(engine, old(View()), m, base)
      ensures ok ==> Same(history', rows) && forall v <- rows :: v >= 1
    {
      history' := history;
      if m.version in history && history[m.version].digest != m.digest {
        return false, history';
      }
      if m.version in history && history[m.version].status == Applied {
        return true, history';
      }
      var from := 0;
      if m.version !in history {
        var next := NextVersion(history.Keys);
        if m.version != next {
          return false, history';
        }
        ok := WriteRows(rows[m.version := Row(m.name, m.digest, Applying, 0)]);
        if !ok {
          return false, history';
        }
        history' := history[m.version := Row(m.name, m.digest, Applying, 0)];
      } else {
        if history[m.version].status == Unknown {
          return false, history';
        }
        if history[m.version].index < 0 || history[m.version].index > |m.statements| {
          return false, history';
        }
        from := history[m.version].index;
      }
      ok, history' := RunStatements(history', m, from, base);
    }
  
    method ApplyMigrations(history: map<int, Row>, files: seq<Migration>) returns (ok: bool)
      requires Same(history, rows) && forall v <- rows :: v >= 1
      modifies this
      ensures (View(), ok) == ApplyFiles(engine, old(View()), files, 0)
    {
      var history' := history;
      for i := 0 to |files|
        invariant Same(history', rows) && forall v <- rows :: v >= 1
        invariant ApplyFiles(engine, View(), files, i) == ApplyFiles(engine, old(View()), files, 0)
      {
        ok, history' := ApplyMigration(history', files[i], Offset(files, i));
        if !ok {
          return false;
        }
      }
      return true;
    }

    /** `ApplyMySQL` once it holds the lock: what is proved of `Apply` holds of the database it leaves. */
    method ApplyMySql(files: seq<Migration>) returns (ok: bool)
      modifies this
      ensures (View(), ok) == Apply(engine, old(View()), files)
    {
      var history := rows;
      var valid := ValidateHistory(history, files);
      if !valid {
        return false;
      }
      ok := ApplyMigrations(history, files);
    }

    /** `VerifyMySQL`'s loop over the history. */
    method VerifyHistory(files: seq<Migration>) returns (verified: bool)
      ensures verified == Verified(rows, files)
    {
      if |rows| != |files| {
        return false;
      }
      for i := 0 to |files|
        invariant forall k | 0 <= k < i ::
            files[k].version in rows && rows[files[k].version].status == Applied
            && rows[files[k].version].digest == files[k].digest
            && rows[files[k].version].index == |files[k].statements|
      {
        var m := files[i];
        if m.version !in rows || rows[m.version].status != Applied || rows[m.version].digest != m.digest
           || rows[m.version].index != |m.statements| {
          return false;
        }
      }
      return true;
    }
  }
}
