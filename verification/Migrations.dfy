/**
 The MySQL migration runner. DDL commits by itself, so the runner checkpoints every statement in a
 history table and resumes from the checkpoint. Every write to the server may fail before or after
 it took effect, and the process may die at any of them.
 */
module Migrations {

  // ---------------------------------------------------------------------------------------------
  // The server
  // ---------------------------------------------------------------------------------------------

  /** Whatever the statements act on. */
  type Schema(!new)

  datatype Reply = Fine | ServerError(code: nat)

  /** What executing a statement does to the schema, and what the server answers. */
  datatype Engine = Engine(exec: (Schema, string) -> (Schema, Reply))

  /** `isMySQLAlreadyApplied`: the object the statement creates exists. */
  predicate AlreadyApplied(code: nat) { code in {1022, 1050, 1060, 1061, 1359, 1826} }

  predicate Accepted(reply: Reply) { reply.Fine? || AlreadyApplied(reply.code) }

  datatype Status = Applied | Applying | Failed | Unknown

  datatype Row = Row(name: string, digest: string, status: Status, index: int)

  datatype Migration = Migration(version: int, name: string, digest: string, statements: seq<string>)

  /** What becomes of one request: an answer, or an error or a crash before or after it takes effect. */
  datatype Fault = Answered | ErrorBefore | ErrorAfter | CrashBefore | CrashAfter {
    predicate TakesEffect() { Answered? || ErrorAfter? || CrashAfter? }
  }

  /**
   The server, and the faults that lie ahead; none lie beyond the list. `effects` logs the statements
   the server executed and accepted, be it because their object existed already, each by its position
   in the concatenation of all migrations.
   */
  datatype World = World(schema: Schema, rows: map<int, Row>, effects: seq<nat>, faults: seq<Fault>)

  function NextFault(w: World): Fault { if w.faults == [] then Answered else w.faults[0] }

  function Past(w: World): World { if w.faults == [] then w else w.(faults := w.faults[1..]) }

  /** Writes the history table; the runner goes on only when the server answers. */
  function Write(w: World, rows: map<int, Row>): (World, bool) {
    (if NextFault(w).TakesEffect() then Past(w).(rows := rows) else Past(w), NextFault(w).Answered?)
  }

  datatype Heard = Ok | Refused | Gone

  /** Executes the statement at `position`. A statement the server rejects leaves the schema alone. */
  function Execute(e: Engine, w: World, position: nat, statement: string): (World, Heard) {
    var (schema, reply) := e.exec(w.schema, statement);
    ( if NextFault(w).TakesEffect() && Accepted(reply)
      then Past(w).(schema := schema, effects := w.effects + [position]) else Past(w),
      match NextFault(w)
      case Answered => if Accepted(reply) then Ok else Refused
      case ErrorBefore => Refused
      case ErrorAfter => Refused
      case _ => Gone)
  }

  // ---------------------------------------------------------------------------------------------
  // The runner
  // ---------------------------------------------------------------------------------------------

  /** `UPDATE schema_migrations ... WHERE version = v`. */
  function Updated(rows: map<int, Row>, v: int, status: Status, index: int): map<int, Row> {
    if v in rows then rows[v := rows[v].(status := status, index := index)] else rows
  }

  function ApplyStatement(e: Engine, w: World, m: Migration, base: nat, index: nat): (World, bool)
    requires index < |m.statements|
  {
    var (w1, heard) := Execute(e, w, base + index, m.statements[index]);
    match heard
    case Ok => Write(w1, Updated(w1.rows, m.version, Applying, index + 1))
    case Refused => (Write(w1, Updated(w1.rows, m.version, Failed, index)).0, false)
    case Gone => (w1, false)
  }

  /** The statements of `m` from `index` on, then the closing record. */
  function ApplyFrom(e: Engine, w: World, m: Migration, base: nat, index: nat): (World, bool)
    requires index <= |m.statements|
    decreases |m.statements| - index
  {
    if index == |m.statements| then Write(w, Updated(w.rows, m.version, Applied, index))
    else
      var (w1, ok) := ApplyStatement(e, w, m, base, index);
      if ok then ApplyFrom(e, w1, m, base, index + 1) else (w1, false)
  }

  /** `v` follows every recorded version directly. */
  predicate IsNext(recorded: set<int>, v: int) {
    v >= 1 && (forall k <- recorded :: k < v) && (v == 1 || v - 1 in recorded)
  }

  function ApplyOne(e: Engine, w: World, m: Migration, base: nat): (World, bool) {
    if m.version !in w.rows then
      if !IsNext(w.rows.Keys, m.version) then (w, false)
      else
        var (w1, ok) := Write(w, w.rows[m.version := Row(m.name, m.digest, Applying, 0)]);
        if ok then ApplyFrom(e, w1, m, base, 0) else (w1, false)
    else
      var row := w.rows[m.version];
      if row.digest != m.digest then (w, false)
      else if row.status == Applied then (w, true)
      else if row.status == Unknown || row.index < 0 || row.index > |m.statements| then (w, false)
      else ApplyFrom(e, w, m, base, row.index)
  }

  /** The number of statements in the first `i` files. */
  function Offset(files: seq<Migration>, i: nat): nat
    requires i <= |files|
  {
    if i == 0 then 0 else Offset(files, i - 1) + |files[i - 1].statements|
  }

  function ApplyFiles(e: Engine, w: World, files: seq<Migration>, i: nat): (World, bool)
    requires i <= |files|
    decreases |files| - i
  {
    if i == |files| then (w, true)
    else
      var (w1, ok) := ApplyOne(e, w, files[i], Offset(files, i));
      if ok then ApplyFiles(e, w1, files, i + 1) else (w1, false)
  }

  /** `validateMySQLHistory`. */
  predicate ValidHistory(rows: map<int, Row>, files: seq<Migration>) {
    && files != []
    && forall v <- rows :: 1 <= v <= files[|files| - 1].version && rows[v].status != Unknown
  }

  /** One run of `ApplyMySQL`, from reading the history to its return or the crash. */
  function Apply(e: Engine, w: World, files: seq<Migration>): (World, bool) {
    if !ValidHistory(w.rows, files) then (w, false) else ApplyFiles(e, w, files, 0)
  }

  /** `VerifyMySQL`'s check of the history. */
  predicate Verified(rows: map<int, Row>, files: seq<Migration>) {
    && |rows| == |files|
    && forall i | 0 <= i < |files| ::
      var m := files[i];
      && m.version in rows
      && rows[m.version].status == Applied && rows[m.version].digest == m.digest
      && rows[m.version].index == |m.statements|
  }

  /** The embedded files, as `orderedMySQLFiles` returns them. */
  predicate Ordered(files: seq<Migration>) {
    forall i, j | 0 <= i < j < |files| :: files[i].version < files[j].version
  }

  // ---------------------------------------------------------------------------------------------
  // What the log says
  // ---------------------------------------------------------------------------------------------

  /** How many statements the log reaches. */
  function Reach(effects: seq<nat>): nat { if effects == [] then 0 else effects[|effects| - 1] + 1 }

  /** Each logged statement is the next new one, or the latest one again. */
  ghost predicate Stutters(effects: seq<nat>) {
    forall i | 0 <= i < |effects| :: Reach(effects[..i]) <= effects[i] + 1 <= Reach(effects[..i]) + 1
  }

  lemma StuttersAppend(effects: seq<nat>, p: nat)
    requires Stutters(effects) && p <= Reach(effects) <= p + 1
    ensures Stutters(effects + [p]) && Reach(effects + [p]) == p + 1
  {
    var more := effects + [p];
    forall i | 0 <= i < |more| ensures Reach(more[..i]) <= more[i] + 1 <= Reach(more[..i]) + 1 {
      if i < |effects| {
        assert more[..i] == effects[..i];
      } else {
        assert more[..i] == effects;
      }
    }
  }

  /** The accepted statements are exactly those before the reach: a prefix. */
  lemma {:induction false} EffectsAreAPrefix(effects: seq<nat>, p: nat)
    requires Stutters(effects)
    ensures p in effects <==> p < Reach(effects)
    decreases |effects|
  {
    if effects != [] {
      var front, last := effects[..|effects| - 1], effects[|effects| - 1];
      assert Stutters(front) by {
        assert forall i | 0 <= i < |front| :: front[..i] == effects[..i];
      }
      EffectsAreAPrefix(front, p);
      assert effects == front + [last];
    }
  }

  // ---------------------------------------------------------------------------------------------
  // What every write keeps
  // ---------------------------------------------------------------------------------------------

  predicate Complete(row: Row, m: Migration) {
    row == Row(m.name, m.digest, Applied, |m.statements|)
  }

  predicate InProgress(row: Row, m: Migration) {
    && row.name == m.name && row.digest == m.digest
    && (row.status == Applying || row.status == Failed) && 0 <= row.index <= |m.statements|
  }

  /** Version `v` is the `v`th file and recorded complete. */
  predicate IsDone(files: seq<Migration>, rows: map<int, Row>, v: int) {
    1 <= v <= |files| && files[v - 1].version == v && v in rows && Complete(rows[v], files[v - 1])
  }

  /** Version `v` is the `v`th file and recorded in progress. */
  predicate IsOpen(files: seq<Migration>, rows: map<int, Row>, v: int) {
    1 <= v <= |files| && files[v - 1].version == v && v in rows && InProgress(rows[v], files[v - 1])
  }

  /** The first `j` files are recorded complete; the next may be in progress; nothing else is recorded. */
  predicate RowsAt(files: seq<Migration>, rows: map<int, Row>, j: nat) {
    && (forall v | 1 <= v <= j :: IsDone(files, rows, v))
    && (forall v <- rows :: 1 <= v <= j + 1)
    && (j + 1 in rows ==> IsOpen(files, rows, j + 1))
    && j <= |files|
  }

  /** The position of the checkpoint, and the last position the log may have reached. */
  function Checkpoint(files: seq<Migration>, rows: map<int, Row>, j: nat): nat
    requires RowsAt(files, rows, j)
  {
    if j + 1 in rows then Offset(files, j) + rows[j + 1].index else Offset(files, j)
  }

  function Limit(files: seq<Migration>, rows: map<int, Row>, j: nat): nat
    requires RowsAt(files, rows, j)
  {
    if j + 1 in rows then Offset(files, j) + |files[j].statements| else Offset(files, j)
  }

  /** The log is at most one statement ahead of the checkpoint and stays inside the file in progress. */
  ghost predicate Progress(files: seq<Migration>, rows: map<int, Row>, effects: seq<nat>, j: nat)
    requires RowsAt(files, rows, j)
  {
    && Stutters(effects)
    && Checkpoint(files, rows, j) <= Reach(effects) <= Checkpoint(files, rows, j) + 1
    && Reach(effects) <= Limit(files, rows, j)
  }

  /** The statements of the first `i` files. */
  function Flat(files: seq<Migration>, i: nat): (r: seq<string>)
    requires i <= |files|
    ensures |r| == Offset(files, i)
  {
    if i == 0 then [] else Flat(files, i - 1) + files[i - 1].statements
  }

  /** The schema after a clean run of the first `k` statements. */
  function Clean(e: Engine, initial: Schema, statements: seq<string>, k: nat): Schema
    requires k <= |statements|
  {
    if k == 0 then initial
    else e.exec(Clean(e, initial, statements, k - 1), statements[k - 1]).0
  }

  /** The engine, the schema before any migration, and the embedded files. */
  datatype Plan = Plan(engine: Engine, initial: Schema, files: seq<Migration>) {
    function All(): seq<string> { Flat(files, |files|) }

    function At(k: nat): Schema
      requires k <= |All()|
    {
      Clean(engine, initial, All(), k)
    }

    /** Repeating statement `k` of a clean run right away changes nothing. */
    ghost predicate Harmless(k: nat) {
      k < |All()| && engine.exec(At(k + 1), All()[k]).0 == At(k + 1)
    }

    /** The server accepts statement `k` of a clean run, or its repetition if the log reached it already. */
    predicate Accepts(k: nat, reach: nat) {
      k < |All()| && Accepted(engine.exec(At(if k < reach then k + 1 else k), All()[k]).1)
    }
  }

  /** The statements that were executed twice do no harm. */
  ghost predicate AllHarmless(p: Plan, effects: seq<nat>) {
    forall i | 1 <= i < |effects| && effects[i] == effects[i - 1] :: p.Harmless(effects[i])
  }

  ghost predicate SchemaAt(p: Plan, schema: Schema, effects: seq<nat>) {
    Reach(effects) <= |p.All()| && (AllHarmless(p, effects) ==> schema == p.At(Reach(effects)))
  }

  /** No faults lie ahead, and nothing was or will be repeated to harm; `at` is the checkpoint. */
  ghost predicate Steady(p: Plan, w: World, at: nat) {
    w.faults == [] && AllHarmless(p, w.effects) && (at < Reach(w.effects) ==> p.Harmless(at))
  }

  ghost predicate AcceptsUntil(p: Plan, at: nat, reach: nat, end: nat) {
    forall k: nat | at <= k < end :: p.Accepts(k, reach)
  }

  lemma AcceptsMore(p: Plan, at: nat, reach: nat, middle: nat, end: nat)
    requires at <= middle <= end && reach <= middle
    ensures AcceptsUntil(p, at, reach, end) <==>
      AcceptsUntil(p, at, reach, middle) && AcceptsUntil(p, middle, middle, end)
  {
    hide p.Accepts;
    forall k: nat | middle <= k < end ensures p.Accepts(k, reach) <==> p.Accepts(k, middle) {
      AcceptsAfter(p, k, reach, middle);
    }
  }

  lemma AcceptsAfter(p: Plan, k: nat, reach: nat, reach': nat)
    requires reach <= k && reach' <= k
    ensures p.Accepts(k, reach) <==> p.Accepts(k, reach')
  {
  }

  ghost predicate Inv(p: Plan, w: World, j: nat) {
    && RowsAt(p.files, w.rows, j)
    && Progress(p.files, w.rows, w.effects, j)
    && SchemaAt(p, w.schema, w.effects)
  }

  lemma {:induction false} OffsetGrows(files: seq<Migration>, i: nat, j: nat)
    requires i <= j <= |files|
    ensures Offset(files, i) <= Offset(files, j)
  {
    if i < j {
      OffsetGrows(files, i, j - 1);
    }
  }

  lemma {:induction false} FlatAt(files: seq<Migration>, j: nat, index: nat, n: nat)
    requires j < n <= |files| && index < |files[j].statements|
    ensures Offset(files, j) + index < Offset(files, n)
    ensures Flat(files, n)[Offset(files, j) + index] == files[j].statements[index]
  {
    if j < n - 1 {
      FlatAt(files, j, index, n - 1);
    }
  }

  // ---------------------------------------------------------------------------------------------
  // One request
  // ---------------------------------------------------------------------------------------------

  /** Executing the next new statement, or the latest one again, gives the clean schema after it. */
  lemma SchemaStep(p: Plan, schema: Schema, effects: seq<nat>, at: nat)
    requires SchemaAt(p, schema, effects) && at <= Reach(effects) <= at + 1 && at < |p.All()|
    ensures SchemaAt(p, p.engine.exec(schema, p.All()[at]).0, effects + [at])
  {
    hide Flat, AllHarmless;
    HarmlessFront(p, effects, at);
    assert p.At(at + 1) == p.engine.exec(p.At(at), p.All()[at]).0;
  }

  lemma HarmlessFront(p: Plan, effects: seq<nat>, at: nat)
    ensures AllHarmless(p, effects + [at]) <==>
      AllHarmless(p, effects) && (effects != [] && effects[|effects| - 1] == at ==> p.Harmless(at))
  {
    var more := effects + [at];
    assert forall i | 0 <= i < |effects| :: more[i] == effects[i];
    if AllHarmless(p, more) {
      assert effects != [] ==> more[|effects| - 1] == effects[|effects| - 1] && more[|effects|] == at;
    }
  }

  /** Without faults the server's answer is the one of a clean run. */
  lemma SteadyStep(p: Plan, w: World, at: nat)
    requires SchemaAt(p, w.schema, w.effects) && at <= Reach(w.effects) <= at + 1 && at < |p.All()| && Steady(p, w, at)
    ensures Accepted(p.engine.exec(w.schema, p.All()[at]).1) <==> p.Accepts(at, Reach(w.effects))
    ensures AllHarmless(p, w.effects + [at])
  {
    hide Flat, AllHarmless;
    HarmlessFront(p, w.effects, at);
  }

  /** Logging the statement at the checkpoint keeps the log at most one ahead. */
  lemma LogStep(files: seq<Migration>, rows: map<int, Row>, effects: seq<nat>, j: nat, index: nat)
    requires RowsAt(files, rows, j) && Progress(files, rows, effects, j)
    requires j + 1 in rows && index == rows[j + 1].index < |files[j].statements|
    ensures Offset(files, j) + index <= Reach(effects) <= Offset(files, j) + index + 1
    ensures Progress(files, rows, effects + [Offset(files, j) + index], j)
    ensures Reach(effects + [Offset(files, j) + index]) == Offset(files, j) + index + 1
  {
    hide Offset;
    StuttersAppend(effects, Offset(files, j) + index);
  }

  /** The file in progress is the `j`th, and its checkpoint is at `index`. */
  predicate Resumes(p: Plan, w: World, j: nat, index: nat) {
    && RowsAt(p.files, w.rows, j)
    && j + 1 in w.rows && index == w.rows[j + 1].index <= |p.files[j].statements|
  }

  lemma ExecuteCases(e: Engine, w: World, at: nat, statement: string)
    ensures var (w1, heard) := Execute(e, w, at, statement);
      && w1.rows == w.rows && (w.faults == [] ==> w1.faults == [])
      && ((w1.schema == w.schema && w1.effects == w.effects && !heard.Ok?) ||
          (w1.schema == e.exec(w.schema, statement).0 && w1.effects == w.effects + [at]))
      && (w.faults == [] ==> (heard.Ok? <==> Accepted(e.exec(w.schema, statement).1)))
  {
  }

  /** A statement executed at the checkpoint moves the log and the schema together. */
  lemma ExecuteKeepsInv(p: Plan, w: World, j: nat, index: nat, w1: World, heard: Heard)
    requires Inv(p, w, j) && Resumes(p, w, j, index) && j < |p.files| && index < |p.files[j].statements|
    requires (w1, heard) == Execute(p.engine, w, Offset(p.files, j) + index, p.files[j].statements[index])
    ensures Inv(p, w1, j) && w1.rows == w.rows
    ensures heard.Ok? ==> Reach(w1.effects) == Offset(p.files, j) + index + 1
    ensures var at := Offset(p.files, j) + index;
      Steady(p, w, at) ==> (heard.Ok? <==> p.Accepts(at, Reach(w.effects))) && (heard.Ok? ==> Steady(p, w1, at + 1))
  {
    hide SchemaAt, Progress, Flat, Offset, Execute, RowsAt, Reach, Accepted, AllHarmless, p.Accepts, p.Harmless;
    var at := Offset(p.files, j) + index;
    ExecuteCases(p.engine, w, at, p.files[j].statements[index]);
    FlatAt(p.files, j, index, |p.files|);
    LogStep(p.files, w.rows, w.effects, j, index);
    SchemaStep(p, w.schema, w.effects, at);
    if Steady(p, w, at) {
      SteadyStep(p, w, at);
    }
  }

  // ---------------------------------------------------------------------------------------------
  // One migration
  // ---------------------------------------------------------------------------------------------

  /** Rewriting the row of the open file leaves the complete ones complete. */
  lemma DoneStaysDone(files: seq<Migration>, rows: map<int, Row>, rows': map<int, Row>, j: nat)
    requires RowsAt(files, rows, j)
    requires forall v <- rows :: v in rows' && (v <= j ==> rows'[v] == rows[v])
    ensures forall v | 1 <= v <= j :: IsDone(files, rows', v)
  {
    forall v | 1 <= v <= j ensures IsDone(files, rows', v) {
      assert IsDone(files, rows, v);
    }
  }

  lemma OpenRow(files: seq<Migration>, rows: map<int, Row>, j: nat, row: Row)
    requires RowsAt(files, rows, j) && j < |files| && files[j].version == j + 1 && InProgress(row, files[j])
    ensures RowsAt(files, rows[j + 1 := row], j) && j + 1 in rows[j + 1 := row]
  {
    var rows' := rows[j + 1 := row];
    DoneStaysDone(files, rows, rows', j);
    assert IsOpen(files, rows', j + 1);
  }

  lemma CloseRow(files: seq<Migration>, rows: map<int, Row>, j: nat, row: Row)
    requires RowsAt(files, rows, j) && j < |files| && files[j].version == j + 1 && Complete(row, files[j])
    ensures RowsAt(files, rows[j + 1 := row], j + 1) && j + 2 !in rows[j + 1 := row]
  {
    var rows' := rows[j + 1 := row];
    DoneStaysDone(files, rows, rows', j);
    assert IsDone(files, rows', j + 1);
  }

  /** Recording a checkpoint the log has reached, or the failed one again, keeps the invariant. */
  lemma CheckpointKeepsInv(p: Plan, w: World, j: nat, index: nat, status: Status, w1: World)
    requires Inv(p, w, j) && j + 1 in w.rows && (status == Applying || status == Failed)
    requires index <= |p.files[j].statements|
    requires Offset(p.files, j) + index <= Reach(w.effects) <= Offset(p.files, j) + index + 1
    requires w1 == Write(w, Updated(w.rows, j + 1, status, index)).0
    ensures Inv(p, w1, j) && j + 1 in w1.rows
    ensures Write(w, Updated(w.rows, j + 1, status, index)).1 ==> Resumes(p, w1, j, index)
  {
    hide SchemaAt, Stutters, Offset;
    OpenRow(p.files, w.rows, j, w.rows[j + 1].(status := status, index := index));
  }

  lemma StatementKeepsInv(p: Plan, w: World, j: nat, index: nat, w1: World, ok: bool)
    requires Inv(p, w, j) && Resumes(p, w, j, index) && index < |p.files[j].statements|
    requires (w1, ok) == ApplyStatement(p.engine, w, p.files[j], Offset(p.files, j), index)
    ensures Inv(p, w1, j)
    ensures ok ==> Resumes(p, w1, j, index + 1)
    ensures var at := Offset(p.files, j) + index;
      Steady(p, w, at) ==>
        (ok <==> p.Accepts(at, Reach(w.effects))) && (ok ==> Steady(p, w1, at + 1) && Reach(w1.effects) == at + 1)
  {
    hide SchemaAt, Stutters, Offset, Flat, AllHarmless, p.Accepts, p.Harmless;
    var (w', heard) := Execute(p.engine, w, Offset(p.files, j) + index, p.files[j].statements[index]);
    ExecuteKeepsInv(p, w, j, index, w', heard);
    match heard
    case Ok => CheckpointKeepsInv(p, w', j, index + 1, Applying, w1);
    case Refused => CheckpointKeepsInv(p, w', j, index, Failed, w1);
    case Gone =>
  }

  /** Between two files: `j` are complete and the next has not begun. */
  ghost predicate Boundary(p: Plan, w: World, j: nat) { Inv(p, w, j) && j + 1 !in w.rows }

  ghost predicate Safe(p: Plan, w: World) { exists j :: Inv(p, w, j) }

  /** The closing record makes the file complete. */
  lemma ClosingKeepsInv(p: Plan, w: World, j: nat, w1: World, ok: bool)
    requires Inv(p, w, j) && j < |p.files| && Resumes(p, w, j, |p.files[j].statements|)
    requires (w1, ok) == Write(w, Updated(w.rows, j + 1, Applied, |p.files[j].statements|))
    ensures Safe(p, w1) && (ok ==> Boundary(p, w1, j + 1))
    ensures w.faults == [] ==> ok
    ensures w1.effects == w.effects && (w.faults == [] ==> w1.faults == [])
  {
    hide SchemaAt, Stutters;
    CloseRow(p.files, w.rows, j, w.rows[j + 1].(status := Applied, index := |p.files[j].statements|));
    if NextFault(w).TakesEffect() {
      assert Boundary(p, w1, j + 1);
    } else {
      assert Inv(p, w1, j);
    }
  }

  lemma {:induction false} MigrationKeepsInv(p: Plan, w: World, j: nat, index: nat, w1: World, ok: bool)
    requires Inv(p, w, j) && j < |p.files| && Resumes(p, w, j, index)
    requires (w1, ok) == ApplyFrom(p.engine, w, p.files[j], Offset(p.files, j), index)
    ensures Safe(p, w1) && (ok ==> Boundary(p, w1, j + 1))
    ensures var at, end := Offset(p.files, j) + index, Offset(p.files, j) + |p.files[j].statements|;
      Steady(p, w, at) ==> (ok <==> AcceptsUntil(p, at, Reach(w.effects), end)) && (ok ==> Steady(p, w1, end))
    decreases |p.files[j].statements| - index
  {
    hide Inv, ApplyStatement, Write, Flat, Offset, AllHarmless, p.Accepts, p.Harmless, Reach, AcceptsUntil, Steady;
    var m := p.files[j];
    var at, end := Offset(p.files, j) + index, Offset(p.files, j) + |m.statements|;
    if index == |m.statements| {
      ClosingKeepsInv(p, w, j, w1, ok);
      NothingLeft(p, w, w1, end);
    } else {
      var (w', ok') := ApplyStatement(p.engine, w, m, Offset(p.files, j), index);
      StatementKeepsInv(p, w, j, index, w', ok');
      OneAhead(p, w, j, index);
      FirstOf(p, at, Reach(w.effects), end);
      if ok' {
        MigrationKeepsInv(p, w', j, index + 1, w1, ok);
      }
    }
  }

  lemma NothingLeft(p: Plan, w: World, w1: World, end: nat)
    requires w1.effects == w.effects && (w.faults == [] ==> w1.faults == [])
    ensures AcceptsUntil(p, end, Reach(w.effects), end)
    ensures Steady(p, w, end) ==> w.faults == [] && Steady(p, w1, end)
  {
    hide AllHarmless, p.Harmless;
  }

  lemma OneAhead(p: Plan, w: World, j: nat, index: nat)
    requires Inv(p, w, j) && Resumes(p, w, j, index)
    ensures Reach(w.effects) <= Offset(p.files, j) + index + 1
  {
    hide Offset, SchemaAt, Stutters;
  }

  lemma FirstOf(p: Plan, at: nat, reach: nat, end: nat)
    requires at < end && reach <= at + 1
    ensures AcceptsUntil(p, at, reach, end) <==> p.Accepts(at, reach) && AcceptsUntil(p, at + 1, at + 1, end)
  {
    hide p.Accepts;
    AcceptsMore(p, at, reach, at + 1, end);
  }

  /** Recording a new migration opens it at its first statement. */
  lemma OpeningKeepsInv(p: Plan, w: World, j: nat, w1: World, ok: bool)
    requires Boundary(p, w, j) && j < |p.files| && p.files[j].version == j + 1
    requires (w1, ok) == Write(w, w.rows[j + 1 := Row(p.files[j].name, p.files[j].digest, Applying, 0)])
    ensures Inv(p, w1, j) && (ok ==> Resumes(p, w1, j, 0))
    ensures w1.effects == w.effects && (w.faults == [] ==> ok && w1.faults == [])
  {
    hide SchemaAt, Stutters, Offset;
    OpenRow(p.files, w.rows, j, Row(p.files[j].name, p.files[j].digest, Applying, 0));
  }

  /** The first file that is not complete is the next version, is in progress, or is out of sequence. */
  lemma NextFile(files: seq<Migration>, rows: map<int, Row>, j: nat)
    requires Ordered(files) && RowsAt(files, rows, j) && j < |files|
    ensures files[j].version in rows <==> j + 1 in rows
    ensures j + 1 !in rows ==> (IsNext(rows.Keys, files[j].version) <==> files[j].version == j + 1)
  {
    if j > 0 {
      assert IsDone(files, rows, j);
      assert files[j - 1].version < files[j].version;
    }
  }

  lemma OneKeepsInv(p: Plan, w: World, j: nat, w1: World, ok: bool)
    requires Ordered(p.files) && Inv(p, w, j) && j < |p.files|
    requires (w1, ok) == ApplyOne(p.engine, w, p.files[j], Offset(p.files, j))
    ensures Safe(p, w1) && (ok ==> Boundary(p, w1, j + 1))
    ensures var at, end := Checkpoint(p.files, w.rows, j), Offset(p.files, j) + |p.files[j].statements|;
      Steady(p, w, at) ==>
        && (ok <==> p.files[j].version == j + 1 && AcceptsUntil(p, at, Reach(w.effects), end))
        && (ok ==> Steady(p, w1, end))
  {
    hide Progress, SchemaAt, Ordered, ApplyFrom, Write, Flat, Offset, Reach;
    hide AllHarmless, p.Accepts, p.Harmless, AcceptsUntil;
    var m := p.files[j];
    NextFile(p.files, w.rows, j);
    if j + 1 in w.rows {
      MigrationKeepsInv(p, w, j, w.rows[j + 1].index, w1, ok);
    } else if m.version == j + 1 {
      var (w', ok') := Write(w, w.rows[j + 1 := Row(m.name, m.digest, Applying, 0)]);
      OpeningKeepsInv(p, w, j, w', ok');
      if ok' {
        MigrationKeepsInv(p, w', j, 0, w1, ok);
      }
    }
  }

  // ---------------------------------------------------------------------------------------------
  // One run, and any number of runs
  // ---------------------------------------------------------------------------------------------

  predicate Sequential(files: seq<Migration>) { forall i | 0 <= i < |files| :: files[i].version == i + 1 }

  /** The files from `j` on are numbered in sequence. */
  predicate SequentialFrom(files: seq<Migration>, j: nat) { forall i | j <= i < |files| :: files[i].version == i + 1 }

  lemma {:induction false} FilesKeepInv(p: Plan, w: World, i: nat, j: nat, w1: World, ok: bool)
    requires Ordered(p.files) && Inv(p, w, j) && i <= j
    requires i <= |p.files| && (w1, ok) == ApplyFiles(p.engine, w, p.files, i)
    ensures Safe(p, w1) && (ok ==> Inv(p, w1, |p.files|))
    ensures var at := Checkpoint(p.files, w.rows, j);
      Steady(p, w, at) ==> (ok <==> SequentialFrom(p.files, j) && AcceptsUntil(p, at, Reach(w.effects), |p.All()|))
    decreases |p.files| - i
  {
    hide Inv, ApplyOne, Ordered, Offset, Flat, Checkpoint, Steady, AcceptsUntil, Reach, RowsAt;
    HasRows(p, w, j);
    if i < j {
      SkipComplete(p, w, i, j);
      FilesKeepInv(p, w, i + 1, j, w1, ok);
    } else if i < |p.files| {
      var (w', ok') := ApplyOne(p.engine, w, p.files[j], Offset(p.files, j));
      OneKeepsInv(p, w, j, w', ok');
      RestOfFiles(p, w, j);
      if ok' {
        FilesKeepInv(p, w', i + 1, j + 1, w1, ok);
        AtBoundary(p, w', j + 1);
      }
    } else {
      NoFilesLeft(p, w);
    }
  }

  lemma HasRows(p: Plan, w: World, j: nat)
    requires Inv(p, w, j)
    ensures RowsAt(p.files, w.rows, j) && j <= |p.files|
  {
  }

  /** At a boundary the log has reached exactly the checkpoint. */
  lemma AtBoundary(p: Plan, w: World, j: nat)
    requires Boundary(p, w, j)
    ensures RowsAt(p.files, w.rows, j) && Checkpoint(p.files, w.rows, j) == Offset(p.files, j) == Reach(w.effects)
  {
    hide SchemaAt, Stutters, Offset;
  }

  lemma NoFilesLeft(p: Plan, w: World)
    requires Inv(p, w, |p.files|)
    ensures AcceptsUntil(p, Checkpoint(p.files, w.rows, |p.files|), Reach(w.effects), |p.All()|)
  {
    hide SchemaAt, Stutters, Offset, p.Accepts;
    assert |p.files| + 1 !in w.rows;
  }

  /** What the files from `j` on need, split after the first of them. */
  lemma RestOfFiles(p: Plan, w: World, j: nat)
    requires Inv(p, w, j) && j < |p.files|
    ensures SequentialFrom(p.files, j) <==> p.files[j].version == j + 1 && SequentialFrom(p.files, j + 1)
    ensures Offset(p.files, j + 1) == Offset(p.files, j) + |p.files[j].statements|
    ensures var at, end := Checkpoint(p.files, w.rows, j), Offset(p.files, j + 1);
      AcceptsUntil(p, at, Reach(w.effects), |p.All()|) <==>
        AcceptsUntil(p, at, Reach(w.effects), end) && AcceptsUntil(p, end, end, |p.All()|)
  {
    hide SchemaAt, Stutters, AcceptsUntil, Flat;
    OffsetGrows(p.files, j + 1, |p.files|);
    AcceptsMore(p, Checkpoint(p.files, w.rows, j), Reach(w.effects), Offset(p.files, j + 1), |p.All()|);
  }

  lemma SkipComplete(p: Plan, w: World, i: nat, j: nat)
    requires RowsAt(p.files, w.rows, j) && i < j
    ensures ApplyOne(p.engine, w, p.files[i], Offset(p.files, i)) == (w, true)
  {
    hide Offset;
    assert IsDone(p.files, w.rows, i + 1);
  }

  /** Whatever the faults, a run from a safe state leaves a safe state. */
  lemma RunKeepsSafe(p: Plan, w: World)
    requires Ordered(p.files) && Safe(p, w)
    ensures Safe(p, Apply(p.engine, w, p.files).0)
  {
    hide Inv, ApplyFiles, ValidHistory;
    if ValidHistory(w.rows, p.files) {
      var j :| Inv(p, w, j);
      var (w1, ok) := ApplyFiles(p.engine, w, p.files, 0);
      FilesKeepInv(p, w, 0, j, w1, ok);
    }
  }

  /** The database before the first run. */
  function Empty(p: Plan): World { World(p.initial, map[], [], []) }

  /** The database after some runs, each with its own faults. */
  function Runs(p: Plan, runs: seq<seq<Fault>>): World {
    if runs == [] then Empty(p)
    else Apply(p.engine, Runs(p, runs[..|runs| - 1]).(faults := runs[|runs| - 1]), p.files).0
  }

  lemma {:induction false} RunsAreSafe(p: Plan, runs: seq<seq<Fault>>)
    requires Ordered(p.files)
    ensures Safe(p, Runs(p, runs))
  {
    hide Apply, Ordered;
    if runs == [] {
      EmptyIsSafe(p);
    } else {
      RunsAreSafe(p, runs[..|runs| - 1]);
      var w := Runs(p, runs[..|runs| - 1]);
      FaultsDoNotMatter(p, w, runs[|runs| - 1]);
      RunKeepsSafe(p, w.(faults := runs[|runs| - 1]));
    }
  }

  lemma EmptyIsSafe(p: Plan)
    ensures Safe(p, Empty(p))
  {
    assert Inv(p, Empty(p), 0);
  }

  lemma FaultsDoNotMatter(p: Plan, w: World, faults: seq<Fault>)
    requires Safe(p, w)
    ensures Safe(p, w.(faults := faults))
  {
    hide RowsAt, Progress, SchemaAt;
    var j :| Inv(p, w, j);
    assert Inv(p, w.(faults := faults), j);
  }

  /**
   After any number of faulty runs the accepted statements are a prefix of all statements,
   at most one ahead of the recorded checkpoint; and if those executed twice do no harm, the schema is
   the one a clean run of that prefix gives.
   */
  lemma CrashesAreSafe(p: Plan, runs: seq<seq<Fault>>) returns (j: nat)
    requires Ordered(p.files)
    ensures RowsAt(p.files, Runs(p, runs).rows, j)
    ensures forall k: nat :: k in Runs(p, runs).effects <==> k < Reach(Runs(p, runs).effects)
    ensures var c := Checkpoint(p.files, Runs(p, runs).rows, j);
      c <= Reach(Runs(p, runs).effects) <= c + 1
    ensures Reach(Runs(p, runs).effects) <= |p.All()|
    ensures AllHarmless(p, Runs(p, runs).effects) ==> Runs(p, runs).schema == p.At(Reach(Runs(p, runs).effects))
  {
    hide Runs, Checkpoint, Flat, Clean, Ordered;
    RunsAreSafe(p, runs);
    var w := Runs(p, runs);
    j :| Inv(p, w, j);
    forall k: nat ensures k in w.effects <==> k < Reach(w.effects) {
      EffectsAreAPrefix(w.effects, k);
    }
  }

  lemma {:induction false} CountTo(rows: map<int, Row>, n: nat)
    requires forall v :: v in rows <==> 1 <= v <= n
    ensures |rows| == n
  {
    KeysTo(rows.Keys, n);
    assert |rows| == |rows.Keys|;
  }

  lemma {:induction false} KeysTo(keys: set<int>, n: nat)
    requires forall v :: v in keys <==> 1 <= v <= n
    ensures |keys| == n
  {
    if n == 0 {
      assert forall v <- keys :: false;
      assert keys == {};
    } else {
      KeysTo(keys - {n}, n - 1);
    }
  }

  lemma CompleteIsVerified(files: seq<Migration>, rows: map<int, Row>)
    requires RowsAt(files, rows, |files|)
    ensures Verified(rows, files) && Sequential(files)
  {
    forall v ensures v in rows <==> 1 <= v <= |files| {
      if 1 <= v <= |files| {
        assert IsDone(files, rows, v);
      }
    }
    forall i | 0 <= i < |files| ensures IsDone(files, rows, files[i].version) && files[i].version == i + 1 {
      assert IsDone(files, rows, i + 1);
    }
    CountTo(rows, |files|);
  }

  /** A run that succeeds, after any faulty ones, leaves a verified history and every statement executed
      and accepted. */
  lemma SuccessIsComplete(p: Plan, w: World)
    requires Ordered(p.files) && Safe(p, w) && Apply(p.engine, w, p.files).1
    ensures Verified(Apply(p.engine, w, p.files).0.rows, p.files)
    ensures Reach(Apply(p.engine, w, p.files).0.effects) == |p.All()|
    ensures AllHarmless(p, Apply(p.engine, w, p.files).0.effects) ==> Apply(p.engine, w, p.files).0.schema == p.At(|p.All()|)
  {
    hide ApplyFiles, Verified, Ordered, Flat, Clean;
    var j :| Inv(p, w, j);
    var (w1, ok) := ApplyFiles(p.engine, w, p.files, 0);
    FilesKeepInv(p, w, 0, j, w1, ok);
    CompleteIsVerified(p.files, w1.rows);
  }

  /** A run without faults recovers from any faulty ones, exactly when the files are numbered 1, 2, 3, ...
      and the server accepts the rest of the clean run, starting with the statement in doubt if there is one.
      That statement alone may be repeated, so it alone must do no harm. */
  lemma RecoverySucceeds(p: Plan, w: World, j: nat)
    requires Ordered(p.files) && Inv(p, w, j) && Steady(p, w, Checkpoint(p.files, w.rows, j))
    ensures Apply(p.engine, w, p.files).1 <==>
      && p.files != [] && Sequential(p.files)
      && AcceptsUntil(p, Checkpoint(p.files, w.rows, j), Reach(w.effects), |p.All()|)
  {
    hide ApplyFiles, Progress, SchemaAt, Ordered, Flat, Checkpoint, Steady, AcceptsUntil, ValidHistory;
    var (w1, ok) := ApplyFiles(p.engine, w, p.files, 0);
    FilesKeepInv(p, w, 0, j, w1, ok);
    FirstInSequence(p.files, w.rows, j);
    if p.files != [] && Sequential(p.files) {
      HistoryIsValid(p.files, w.rows, j);
    } else if p.files == [] {
      NoFilesNoRun(p, w);
    }
  }

  lemma NoFilesNoRun(p: Plan, w: World)
    requires p.files == []
    ensures !Apply(p.engine, w, p.files).1
  {
  }

  lemma FirstInSequence(files: seq<Migration>, rows: map<int, Row>, j: nat)
    requires RowsAt(files, rows, j)
    ensures Sequential(files) <==> SequentialFrom(files, j)
  {
    forall i | 0 <= i < j ensures files[i].version == i + 1 {
      assert IsDone(files, rows, i + 1);
    }
  }

  lemma HistoryIsValid(files: seq<Migration>, rows: map<int, Row>, j: nat)
    requires RowsAt(files, rows, j) && files != [] && Sequential(files)
    ensures ValidHistory(rows, files)
  {
    forall v <- rows ensures 1 <= v <= files[|files| - 1].version && rows[v].status != Unknown {
      assert IsDone(files, rows, v) || IsOpen(files, rows, v);
    }
  }

  // ---------------------------------------------------------------------------------------------
  // What verification says
  // ---------------------------------------------------------------------------------------------

  function Versions(files: seq<Migration>): set<int> { set i | 0 <= i < |files| :: files[i].version }

  lemma {:induction false} DistinctVersions(files: seq<Migration>)
    requires Ordered(files)
    ensures |Versions(files)| == |files|
  {
    if files != [] {
      var front, last := files[..|files| - 1], files[|files| - 1].version;
      DistinctVersions(front);
      assert forall i | 0 <= i < |front| :: front[i] == files[i];
      assert Versions(files) == Versions(front) + {last};
      assert last !in Versions(front);
    }
  }

  /** A verified history has the rows of the files and no others. */
  lemma VerifiedRows(rows: map<int, Row>, files: seq<Migration>)
    requires Ordered(files) && Verified(rows, files)
    ensures rows.Keys == Versions(files)
  {
    DistinctVersions(files);
    assert Versions(files) <= rows.Keys;
    SameSize(Versions(files), rows.Keys);
  }

  lemma SameSize(a: set<int>, b: set<int>)
    requires a <= b && |a| == |b|
    ensures a == b
  {
    assert |b - a| == 0;
  }

  lemma {:induction false} VerifiedFilesAreSkipped(e: Engine, w: World, files: seq<Migration>, i: nat)
    requires i <= |files| && Verified(w.rows, files)
    ensures ApplyFiles(e, w, files, i) == (w, true)
    decreases |files| - i
  {
    if i < |files| {
      VerifiedFilesAreSkipped(e, w, files, i + 1);
    }
  }

  /** Whoever wrote it, a history that `VerifyMySQL` accepts is one `ApplyMySQL` has nothing to do for. */
  lemma VerifiedIsUpToDate(e: Engine, w: World, files: seq<Migration>)
    requires Ordered(files) && files != [] && files[0].version >= 1 && Verified(w.rows, files)
    ensures Apply(e, w, files) == (w, true)
  {
    VerifiedRows(w.rows, files);
    VerifiedFilesAreSkipped(e, w, files, 0);
    forall v <- w.rows ensures 1 <= v <= files[|files| - 1].version && w.rows[v].status != Unknown {
      var i :| 0 <= i < |files| && files[i].version == v;
      assert files[0].version <= files[i].version <= files[|files| - 1].version;
    }
  }

  /** After any faulty runs verification accepts exactly the databases a run leaves alone, and then every statement
      was executed and accepted. */
  lemma VerifyAcceptsExactly(p: Plan, w: World)
    requires Ordered(p.files) && p.files != [] && p.files[0].version >= 1 && Safe(p, w)
    ensures Verified(w.rows, p.files) <==> Apply(p.engine, w, p.files) == (w, true)
    ensures Verified(w.rows, p.files) ==> Reach(w.effects) == |p.All()|
    ensures Verified(w.rows, p.files) && AllHarmless(p, w.effects) ==> w.schema == p.At(|p.All()|)
  {
    hide Ordered, Safe, Apply, Verified, Reach;
    if Verified(w.rows, p.files) {
      VerifiedIsUpToDate(p.engine, w, p.files);
    }
    if Apply(p.engine, w, p.files) == (w, true) {
      SuccessIsComplete(p, w);
    }
  }

  // ---------------------------------------------------------------------------------------------
  // Any history, not only those the runner left
  // ---------------------------------------------------------------------------------------------

  /** Two histories differ at most in the row of `v`. */
  ghost predicate OnlyAt(rows: map<int, Row>, rows': map<int, Row>, v: int) {
    forall k | k != v :: (k in rows <==> k in rows') && (k in rows ==> rows[k] == rows'[k])
  }

  predicate Finished(rows: map<int, Row>, m: Migration) {
    m.version in rows && rows[m.version].status == Applied && rows[m.version].digest == m.digest
  }

  lemma {:induction false} StatementsTouchOneRow(e: Engine, w: World, m: Migration, base: nat, index: nat)
    requires index <= |m.statements| && m.version in w.rows && w.rows[m.version].digest == m.digest
    ensures OnlyAt(w.rows, ApplyFrom(e, w, m, base, index).0.rows, m.version)
    ensures ApplyFrom(e, w, m, base, index).1 ==> Finished(ApplyFrom(e, w, m, base, index).0.rows, m)
    decreases |m.statements| - index
  {
    if index < |m.statements| {
      var (w1, ok) := ApplyStatement(e, w, m, base, index);
      assert OnlyAt(w.rows, w1.rows, m.version) && m.version in w1.rows && w1.rows[m.version].digest == m.digest;
      if ok {
        hide ApplyStatement;
        StatementsTouchOneRow(e, w1, m, base, index + 1);
      }
    }
  }

  lemma OneTouchesOneRow(e: Engine, w: World, m: Migration, base: nat)
    ensures OnlyAt(w.rows, ApplyOne(e, w, m, base).0.rows, m.version)
    ensures ApplyOne(e, w, m, base).1 ==> Finished(ApplyOne(e, w, m, base).0.rows, m)
    ensures ApplyOne(e, w, m, base).1 && m.version in w.rows ==> w.rows[m.version].digest == m.digest
  {
    hide ApplyFrom;
    if m.version in w.rows {
      var row := w.rows[m.version];
      if row.digest == m.digest && 0 <= row.index <= |m.statements| {
        StatementsTouchOneRow(e, w, m, base, row.index);
      }
    } else {
      var (w1, ok) := Write(w, w.rows[m.version := Row(m.name, m.digest, Applying, 0)]);
      if ok {
        StatementsTouchOneRow(e, w1, m, base, 0);
      }
    }
  }

  /** Each file from `i` on matches the digest recorded before the run, if any, and ends finished. */
  ghost predicate Matching(files: seq<Migration>, i: nat, before: map<int, Row>, after: map<int, Row>) {
    forall k | i <= k < |files| ::
      && Finished(after, files[k])
      && (files[k].version in before ==> before[files[k].version].digest == files[k].digest)
  }

  lemma {:induction false} FilesMatch(e: Engine, w: World, files: seq<Migration>, i: nat)
    requires Ordered(files) && i <= |files| && ApplyFiles(e, w, files, i).1
    ensures Matching(files, i, w.rows, ApplyFiles(e, w, files, i).0.rows)
    ensures forall v <- w.rows | (forall k | i <= k < |files| :: files[k].version != v) ::
      v in ApplyFiles(e, w, files, i).0.rows && ApplyFiles(e, w, files, i).0.rows[v] == w.rows[v]
    decreases |files| - i
  {
    hide ApplyOne, Offset;
    if i < |files| {
      var (w1, ok) := ApplyOne(e, w, files[i], Offset(files, i));
      OneTouchesOneRow(e, w, files[i], Offset(files, i));
      FilesMatch(e, w1, files, i + 1);
      assert forall k | i < k < |files| :: files[k].version != files[i].version;
    }
  }

  /** A run succeeds only over a history whose digests match; a mismatch fails it, whoever wrote the history. */
  lemma MismatchFailsClosed(e: Engine, w: World, files: seq<Migration>)
    requires Ordered(files) && Apply(e, w, files).1
    ensures Matching(files, 0, w.rows, Apply(e, w, files).0.rows)
  {
    FilesMatch(e, w, files, 0);
  }

  // ---------------------------------------------------------------------------------------------
  // Why a run stops
  // ---------------------------------------------------------------------------------------------

  /** The row says that the file failed at a statement, and the server does refuse that statement as things stand. */
  ghost predicate StoppedAt(e: Engine, w: World, m: Migration) {
    && m.version in w.rows && w.rows[m.version].status == Failed && 0 <= w.rows[m.version].index < |m.statements|
    && !Accepted(e.exec(w.schema, m.statements[w.rows[m.version].index]).1)
  }

  /** The history does not allow the file to be applied or skipped. */
  predicate Unfit(rows: map<int, Row>, m: Migration) {
    if m.version !in rows then !IsNext(rows.Keys, m.version)
    else
      var row := rows[m.version];
      || row.digest != m.digest
      || (row.status != Applied && (row.status == Unknown || row.index < 0 || row.index > |m.statements|))
  }

  lemma StatementStops(e: Engine, w: World, m: Migration, base: nat, index: nat)
    requires index < |m.statements| && m.version in w.rows && w.faults == []
    ensures var (w1, ok) := ApplyStatement(e, w, m, base, index);
      && w1.faults == [] && m.version in w1.rows
      && (ok <==> Accepted(e.exec(w.schema, m.statements[index]).1)) && (!ok ==> StoppedAt(e, w1, m))
  {
  }

  lemma {:induction false} MigrationStops(e: Engine, w: World, m: Migration, base: nat, index: nat)
    requires index <= |m.statements| && m.version in w.rows && w.faults == []
    ensures var (w1, ok) := ApplyFrom(e, w, m, base, index); w1.faults == [] && (!ok ==> StoppedAt(e, w1, m))
    decreases |m.statements| - index
  {
    if index < |m.statements| {
      StatementStops(e, w, m, base, index);
      var (w1, ok) := ApplyStatement(e, w, m, base, index);
      if ok {
        hide ApplyStatement, StoppedAt;
        MigrationStops(e, w1, m, base, index + 1);
      }
    }
  }

  lemma FileStops(e: Engine, w: World, m: Migration, base: nat)
    requires w.faults == []
    ensures var (w1, ok) := ApplyOne(e, w, m, base);
      w1.faults == [] && (!ok ==> (Unfit(w.rows, m) && w1 == w) || StoppedAt(e, w1, m))
  {
    hide ApplyFrom, StoppedAt, IsNext;
    if m.version in w.rows {
      var index := w.rows[m.version].index;
      if 0 <= index <= |m.statements| {
        MigrationStops(e, w, m, base, index);
      }
    } else {
      MigrationStops(e, w.(rows := w.rows[m.version := Row(m.name, m.digest, Applying, 0)]), m, base, 0);
    }
  }

  /** Whatever the history, a run without faults stops only at a file the history does not allow, or at a statement
      the server refuses, and then the history says which. */
  lemma {:induction false} RunStopsForAReason(e: Engine, w: World, files: seq<Migration>, i: nat)
    requires i <= |files| && w.faults == [] && !ApplyFiles(e, w, files, i).1
    ensures var w1 := ApplyFiles(e, w, files, i).0;
      exists k :: i <= k < |files| && (Unfit(w1.rows, files[k]) || StoppedAt(e, w1, files[k]))
    decreases |files| - i
  {
    hide ApplyOne, Unfit, StoppedAt;
    FileStops(e, w, files[i], Offset(files, i));
    var (w1, ok) := ApplyOne(e, w, files[i], Offset(files, i));
    if ok {
      RunStopsForAReason(e, w1, files, i + 1);
    }
  }
}
