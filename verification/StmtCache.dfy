/** The cache of prepared statements of one connection. */
module StmtCache {
  import opened YanTypes
  import opened SqlLexer
  import opened SqlGrammar
  import opened BindSql

  /******* The database as the cache sees it *******/

  type ResultRow = seq<Option<Value>>

  // Stepping a statement to its end: the rows, whether it ended with DONE, and the new contents.
  datatype Outcome<+D> = Outcome(rows: seq<ResultRow>, ok: bool, after: D)

  // Preparing and running, for any database contents `D`.
  datatype Engine<!D> = Engine(prepare: (D, string) -> bool, run: (D, string, Plan) -> Outcome<D>)

  // How the rows of a statement are consumed: one object, a list, a row count, or not at all.
  datatype Mode = ReadOne | ReadMany | CountRows | Blind

  // One call of `execute`: the key, what a fresh generator makes, the values to bind, the consumer
  // and whether the result type can be fetched.
  datatype Call = Call(key: string, text: Result<string>, plan: Plan, mode: Mode, fetchable: bool)

  datatype Reply = NoRow | OneRow(row: ResultRow) | Rows(rows: seq<ResultRow>) | Counted(n: nat) | Nothing

  /******* One call as a function *******/

  // `exec`, `exec_entity` and the lambdas of update and copy: a single-row read and a blind step
  // do not look at errors.
  function Consume<D>(call: Call, o: Outcome<D>): Result<Reply> {
    match call.mode
    case ReadOne =>
      if o.rows == [] then Ok(NoRow) else if call.fetchable then Ok(OneRow(o.rows[0])) else Thrown
    case ReadMany =>
      if (o.rows == [] || call.fetchable) && o.ok then Ok(Rows(o.rows)) else Thrown
    case CountRows => if o.ok then Ok(Counted(|o.rows|)) else Thrown
    case Blind => Ok(Nothing)
  }

  // What a call did: the new contents, the reply, and whether the statement survived.
  datatype Effect<+D> = Effect(db: D, reply: Result<Reply>, kept: bool)

  /** Binding and running a prepared text; any failure costs the statement. */
  function RunPrepared<D>(e: Engine<D>, db: D, text: string, call: Call): Effect<D> {
    var slots := Fresh(Marks(Lex(text)));
    if !Fits(call.plan, 0, |slots|) then Effect(db, Thrown, false)
    else
      var o := e.run(db, text, Fill(slots, 0, call.plan));
      Effect(o.after, Consume(call, o), Consume(call, o).Ok?)
  }

  function Fresh(n: nat): (p: Plan)
    ensures |p| == n
  {
    if n == 0 then [] else [None] + Fresh(n - 1)
  }

  lemma {:induction false} ClearIsFresh(p: Plan)
    requires forall i :: 0 <= i < |p| ==> p[i].None?
    ensures p == Fresh(|p|)
  {
    if p != [] { ClearIsFresh(p[1..]); }
  }

  // Compiling: the text with its semicolon, if it can be made and prepared.
  function Compile<D>(e: Engine<D>, db: D, call: Call): Result<string> {
    if call.text.Ok? && e.prepare(db, call.text.value + ";") then Ok(call.text.value + ";") else Thrown
  }

  datatype After<+D> = After(db: D, cache: map<string, string>, reply: Result<Reply>)

  /** A call against the cache; `cache` maps each key to the text of its statement. */
  function CacheStep<D>(e: Engine<D>, db: D, cache: map<string, string>, call: Call): After<D> {
    if call.key !in cache && Compile(e, db, call).Thrown? then After(db, cache, Thrown)
    else
      var text := if call.key in cache then cache[call.key] else Compile(e, db, call).value;
      var f := RunPrepared(e, db, text, call);
      After(f.db, if f.kept then cache[call.key := text] else cache - {call.key}, f.reply)
  }

  /** The same call compiled and prepared afresh. */
  function FreshStep<D>(e: Engine<D>, db: D, call: Call): (D, Result<Reply>) {
    if Compile(e, db, call).Thrown? then (db, Thrown)
    else
      var f := RunPrepared(e, db, Compile(e, db, call).value, call);
      (f.db, f.reply)
  }

  /******* The connection object *******/

  // No two keys share a statement.
  ghost predicate Injective(m: map<string, PreparedStmt>) {
    forall j, k :: j in m && k in m && m[j] == m[k] ==> j == k
  }

  lemma InjectiveAdd(m: map<string, PreparedStmt>, key: string, stmt: PreparedStmt)
    requires Injective(m) && stmt !in m.Values
    ensures Injective(m[key := stmt])
  {
    forall j | j in m ensures m[j] != stmt { assert m[j] in m.Values; }
  }

  lemma InjectiveDrop(m: map<string, PreparedStmt>, key: string)
    requires Injective(m)
    ensures Injective(m - {key})
  {
  }

  class SqliteContext<D(!new)> {
    const engine: Engine<D>
    var db: D
    var readStmts: map<string, PreparedStmt>

    constructor (engine: Engine<D>, db: D)
      ensures this.engine == engine && this.db == db && readStmts == map[] && Valid()
    {
      this.engine, this.db := engine, db;
      readStmts := map[];
    }

    // A statement ready for the next call: not finalized, reset, and with nothing bound.
    predicate Ready(s: PreparedStmt)
      reads s
    {
      s.live && !s.stepping && s.slots == Fresh(Marks(Lex(s.text)))
    }

    /** Every cached statement is ready, and no two keys share one. */
    ghost predicate Valid()
      reads this, readStmts.Values
    {
      && (forall k :: k in readStmts ==> Ready(readStmts[k]))
      && Injective(readStmts)
    }

    ghost function Texts(): map<string, string>
      reads this
    {
      map k | k in readStmts :: readStmts[k].text
    }

    // `create_stmt`
    method CreateStmt(call: Call) returns (stmt: Result<PreparedStmt>)
      ensures stmt.Thrown? == Compile(engine, db, call).Thrown?
      ensures stmt.Ok? ==> fresh(stmt.value) && Ready(stmt.value)
                           && stmt.value.text == Compile(engine, db, call).value
    {
      if call.text.Thrown? { return Thrown; }
      var sql := call.text.value + ";";
      if !engine.prepare(db, sql) { return Thrown; }
      var s := new PreparedStmt(sql);
      ClearIsFresh(s.slots);
      stmt := Ok(s);
    }

    // Binding and stepping, up to the first exception.
    method BindAndRun(stmt: PreparedStmt, call: Call) returns (r: Result<Reply>)
      requires Ready(stmt)
      modifies this`db, stmt`slots, stmt`stepping
      ensures var f := RunPrepared(engine, old(db), stmt.text, call);
              db == f.db && r == f.reply && f.kept == r.Ok?
      ensures |stmt.slots| == old(|stmt.slots|)
    {
      var binder := new BindSqlParam(stmt);
      var ok := binder.AppendAll(call.plan);
      if !ok { return Thrown; }
      stmt.stepping := true;
      var o := engine.run(db, stmt.text, stmt.slots);
      db := o.after;
      r := Exec(call, o);
    }

    // The consumers of rows.
    method Exec(call: Call, o: Outcome<D>) returns (r: Result<Reply>)
      ensures r == Consume(call, o)
      ensures call.mode.ReadOne? ==>
                r == if |o.rows| == 0 then Ok(NoRow) else if call.fetchable then Ok(OneRow(o.rows[0])) else Thrown
      ensures call.mode.ReadMany? ==> r == if o.ok && (|o.rows| == 0 || call.fetchable) then Ok(Rows(o.rows)) else Thrown
      ensures call.mode.CountRows? ==> r == if o.ok then Ok(Counted(|o.rows|)) else Thrown
      ensures call.mode.Blind? ==> r == Ok(Nothing)
    {
      match call.mode
      case ReadOne =>
        if |o.rows| == 0 { return Ok(NoRow); }
        r := if call.fetchable then Ok(OneRow(o.rows[0])) else Thrown;
      case ReadMany =>
        var rows, i := [], 0;
        while i < |o.rows|
          invariant 0 <= i <= |o.rows| && rows == o.rows[..i] && (i > 0 ==> call.fetchable)
        {
          if !call.fetchable { return Thrown; }
          rows := rows + [o.rows[i]];
          i := i + 1;
        }
        assert o.rows[..|o.rows|] == o.rows;
        r := if o.ok then Ok(Rows(rows)) else Thrown;
      case CountRows =>
        var n := 0;
        while n < |o.rows|
          invariant n <= |o.rows|
        {
          n := n + 1;
        }
        r := if o.ok then Ok(Counted(n)) else Thrown;
      case Blind => r := Ok(Nothing);
    }

    method Remember(key: string, stmt: PreparedStmt)
      requires Valid() && key !in readStmts && stmt !in readStmts.Values && Ready(stmt)
      modifies this`readStmts
      ensures Valid() && readStmts == old(readStmts)[key := stmt]
      ensures Texts() == old(Texts())[key := stmt.text]
    {
      hide Ready, Injective;
      InjectiveAdd(readStmts, key, stmt);
      ghost var before := Texts();
      readStmts := readStmts[key := stmt];
      forall k | k in readStmts ensures Ready(readStmts[k]) {
        assert k != key ==> readStmts[k] == old(readStmts)[k];
      }
      assert Texts() == before[key := stmt.text];
    }

    // A statement of the cache, prepared now when there was none.
    method Find(call: Call) returns (stmt: Result<PreparedStmt>)
      requires Valid()
      modifies this`readStmts
      ensures Valid()
      ensures forall s :: s in readStmts.Values ==> s in old(readStmts.Values) || fresh(s)
      ensures stmt.Thrown? == (call.key !in old(readStmts) && Compile(engine, db, call).Thrown?)
      ensures stmt.Thrown? ==> readStmts == old(readStmts) && Texts() == old(Texts())
      ensures stmt.Ok? ==> call.key in readStmts && readStmts[call.key] == stmt.value
      ensures stmt.Ok? ==> readStmts == old(readStmts)[call.key := stmt.value]
      ensures stmt.Ok? && call.key in old(readStmts) ==> stmt.value == old(readStmts)[call.key]
      ensures stmt.Ok? ==> Texts() == old(Texts())[call.key := stmt.value.text]
      ensures stmt.Ok? ==> stmt.value.text ==
                           if call.key in old(readStmts) then old(Texts())[call.key] else Compile(engine, db, call).value
    {
      if call.key !in readStmts {
        stmt := CreateStmt(call);
        if stmt.Thrown? { return; }
        Remember(call.key, stmt.value);
      }
      stmt := Ok(readStmts[call.key]);
      assert old(Texts())[call.key := stmt.value.text] == Texts();
    }

    // All statements but that of `key` are ready.
    ghost predicate ValidBut(key: string)
      reads this, readStmts.Values
    {
      && key in readStmts
      && (forall k :: k in readStmts && k != key ==> Ready(readStmts[k]))
      && Injective(readStmts)
    }

    // The error path: finalize and erase.
    method Discard(key: string, stmt: PreparedStmt)
      requires ValidBut(key) && readStmts[key] == stmt
      modifies this`readStmts, stmt`live
      ensures Valid() && readStmts == old(readStmts) - {key} && !stmt.live
      ensures Texts() == old(Texts()) - {key}
    {
      stmt.Finalize();
      InjectiveDrop(readStmts, key);
      readStmts := readStmts - {key};
    }

    // The normal path: reset and clear for the next call.
    method Recycle(key: string, stmt: PreparedStmt)
      requires ValidBut(key) && readStmts[key] == stmt && stmt.live && |stmt.slots| == Marks(Lex(stmt.text))
      modifies stmt`stepping, stmt`slots
      ensures Valid() && Texts() == old(Texts()) && readStmts == old(readStmts)
    {
      stmt.Reset();
      stmt.ClearBindings();
      ClearIsFresh(stmt.slots);
    }

    // The rest of `execute`, with the statement at hand.
    method RunFound(stmt: PreparedStmt, call: Call) returns (r: Result<Reply>)
      requires Valid() && call.key in readStmts && readStmts[call.key] == stmt
      modifies this`db, this`readStmts, stmt
      ensures Valid()
      ensures Texts() == if r.Thrown? then old(Texts()) - {call.key} else old(Texts())
      ensures readStmts == if r.Thrown? then old(readStmts) - {call.key} else old(readStmts)
      ensures var f := RunPrepared(engine, old(db), stmt.text, call);
              db == f.db && r == f.reply && f.kept == r.Ok?
    {
      hide RunPrepared;
      assert stmt in readStmts.Values;
      r := BindAndRun(stmt, call);
      assert ValidBut(call.key);
      if r.Thrown? { Discard(call.key, stmt); } else { Recycle(call.key, stmt); }
    }

    /** `execute`: look the statement up or create it, bind and run, and either reset it for the next
        call or finalize it and drop its entry. */
    method Execute(call: Call) returns (r: Result<Reply>)
      requires Valid()
      modifies this, readStmts.Values
      ensures Valid()
      ensures forall s :: s in readStmts.Values ==> s in old(readStmts.Values) || fresh(s)
      ensures var a := CacheStep(engine, old(db), old(Texts()), call);
              db == a.db && Texts() == a.cache && r == a.reply
      ensures call.key in readStmts <==> r.Ok?
      ensures call.key in readStmts && call.key in old(readStmts) ==> readStmts[call.key] == old(readStmts)[call.key]
      ensures readStmts - {call.key} == old(readStmts) - {call.key}
    {
      hide Ready, RunPrepared;
      ghost var cache, db0 := Texts(), db;
      var found := Find(call);
      if found.Thrown? { return Thrown; }
      r := RunFound(found.value, call);
      DropAdded(cache, call.key, found.value.text);
      StepFrom(engine, db0, cache, call, found.value.text);
    }
  }

  /** A cached statement is not compiled again: what the call does depends neither on the text a generator
      would make nor on preparing. */
  lemma CachedIsNotCompiled<D>(e: Engine<D>, f: Engine<D>, db: D, cache: map<string, string>, call: Call, text: Result<string>)
    requires call.key in cache && e.run == f.run
    ensures CacheStep(e, db, cache, call) == CacheStep(f, db, cache, call.(text := text))
  {
  }

  /** After a call its statement is cached exactly when it did not throw, under its own text unless one
      was cached before; the others stay. */
  lemma CachedAfter<D>(e: Engine<D>, db: D, cache: map<string, string>, call: Call)
    ensures var a := CacheStep(e, db, cache, call);
      && (call.key in a.cache <==> a.reply.Ok?)
      && (a.reply.Ok? && call.key in cache ==> a.cache[call.key] == cache[call.key])
      && (a.reply.Ok? && call.key !in cache ==> call.text.Ok? && a.cache[call.key] == call.text.value + ";")
      && a.cache - {call.key} == cache - {call.key}
  {
    hide Fill, Fits;
    var a := CacheStep(e, db, cache, call);
    assert forall k :: k != call.key ==> (k in a.cache <==> k in cache) && (k in cache ==> a.cache[k] == cache[k]);
  }

  lemma DropAdded(cache: map<string, string>, key: string, text: string)
    ensures cache[key := text] - {key} == cache - {key}
  {
  }

  lemma StepFrom<D>(e: Engine<D>, db: D, cache: map<string, string>, call: Call, text: string)
    requires call.key !in cache ==> Compile(e, db, call).Ok?
    requires text == if call.key in cache then cache[call.key] else Compile(e, db, call).value
    ensures var f := RunPrepared(e, db, text, call);
            CacheStep(e, db, cache, call) == After(f.db, if f.kept then cache[call.key := text] else cache - {call.key}, f.reply)
  {
  }

  /******* Whole runs *******/

  datatype Trace<+D> = Trace(db: D, replies: seq<Result<Reply>>)

  // `others[i]` is what other connections do to the contents before the i-th call.
  function CachedRun<D>(e: Engine<D>, db: D, cache: map<string, string>, calls: seq<Call>, others: seq<D -> D>): Trace<D>
    requires |others| == |calls|
    decreases |calls|
  {
    if calls == [] then Trace(db, [])
    else
      var a := CacheStep(e, others[0](db), cache, calls[0]);
      var t := CachedRun(e, a.db, a.cache, calls[1..], others[1..]);
      Trace(t.db, [a.reply] + t.replies)
  }

  function FreshRun<D>(e: Engine<D>, db: D, calls: seq<Call>, others: seq<D -> D>): Trace<D>
    requires |others| == |calls|
    decreases |calls|
  {
    if calls == [] then Trace(db, [])
    else
      var (db1, reply) := FreshStep(e, others[0](db), calls[0]);
      var t := FreshRun(e, db1, calls[1..], others[1..]);
      Trace(t.db, [reply] + t.replies)
  }

  // A text that could be prepared once can be prepared after any statement has run.
  ghost predicate Stable<D(!new)>(e: Engine<D>) {
    forall db, text, other, slots :: e.prepare(db, text) ==> e.prepare(e.run(db, other, slots).after, text)
  }

  // And after whatever the other connections do.
  ghost predicate StableUnder<D(!new)>(e: Engine<D>, others: seq<D -> D>) {
    forall i, db, text :: 0 <= i < |others| && e.prepare(db, text) ==> e.prepare(others[i](db), text)
  }

  /** Equal keys, equal texts. */
  predicate CollisionFree(calls: seq<Call>) {
    forall i, j :: 0 <= i < |calls| && 0 <= j < |calls| && calls[i].key == calls[j].key ==> calls[i].text == calls[j].text
  }

  // Every cached text can be prepared, and is what any later call with its key would compile.
  ghost predicate Faithful<D(!new)>(e: Engine<D>, db: D, cache: map<string, string>, calls: seq<Call>) {
    && (forall k :: k in cache ==> e.prepare(db, cache[k]))
    && (forall i :: 0 <= i < |calls| && calls[i].key in cache ==>
          calls[i].text.Ok? && cache[calls[i].key] == calls[i].text.value + ";")
  }

  lemma StepAgrees<D(!new)>(e: Engine<D>, db: D, cache: map<string, string>, calls: seq<Call>)
    requires calls != [] && Stable(e) && CollisionFree(calls) && Faithful(e, db, cache, calls)
    ensures var a := CacheStep(e, db, cache, calls[0]);
            && FreshStep(e, db, calls[0]) == (a.db, a.reply)
            && Faithful(e, a.db, a.cache, calls[1..])
  {
    var call := calls[0];
    var a := CacheStep(e, db, cache, call);
    if call.key in cache { assert e.prepare(db, cache[call.key]); }
    forall i | 0 <= i < |calls[1..]| && calls[1..][i].key in a.cache
      ensures calls[1..][i].text.Ok? && a.cache[calls[1..][i].key] == calls[1..][i].text.value + ";"
    {
      assert calls[1..][i] == calls[i + 1];
    }
    forall k | k in a.cache ensures e.prepare(a.db, a.cache[k]) {
      if k != call.key { assert k in cache; }
    }
  }

  lemma CollisionFreeRest(calls: seq<Call>)
    requires calls != [] && CollisionFree(calls)
    ensures CollisionFree(calls[1..])
  {
    forall i, j | 0 <= i < |calls[1..]| && 0 <= j < |calls[1..]| && calls[1..][i].key == calls[1..][j].key
      ensures calls[1..][i].text == calls[1..][j].text
    {
      assert calls[i + 1].key == calls[j + 1].key;
    }
  }

  // Other connections leave the cache as faithful as it was.
  lemma OthersAgree<D(!new)>(e: Engine<D>, db: D, cache: map<string, string>, calls: seq<Call>, others: seq<D -> D>)
    requires others != [] && StableUnder(e, others) && Faithful(e, db, cache, calls)
    ensures Faithful(e, others[0](db), cache, calls) && StableUnder(e, others[1..])
  {
    forall i, db', text | 0 <= i < |others[1..]| && e.prepare(db', text) ensures e.prepare(others[1..][i](db'), text) {
      assert others[1..][i] == others[i + 1];
    }
  }

  lemma {:induction false} RunsAgree<D(!new)>(e: Engine<D>, db: D, cache: map<string, string>, calls: seq<Call>, others: seq<D -> D>)
    requires |others| == |calls| && Stable(e) && StableUnder(e, others)
    requires CollisionFree(calls) && Faithful(e, db, cache, calls)
    ensures CachedRun(e, db, cache, calls, others) == FreshRun(e, db, calls, others)
    decreases |calls|
  {
    if calls != [] {
      hide Stable, StableUnder, CollisionFree, Faithful;
      OthersAgree(e, db, cache, calls, others);
      StepAgrees(e, others[0](db), cache, calls);
      CollisionFreeRest(calls);
      var a := CacheStep(e, others[0](db), cache, calls[0]);
      RunsAgree(e, a.db, a.cache, calls[1..], others[1..]);
    }
  }

  /** Over every sequence of calls, prepare, bind and step failures included, and whatever other
      connections do to the contents in between, the cache is invisible: contents and replies are
      those of compiling afresh, provided the keys do not collide. */
  lemma {:induction false} CacheIsInvisible<D(!new)>(e: Engine<D>, db: D, calls: seq<Call>, others: seq<D -> D>)
    requires |others| == |calls| && Stable(e) && StableUnder(e, others) && CollisionFree(calls)
    ensures CachedRun(e, db, map[], calls, others) == FreshRun(e, db, calls, others)
  {
    RunsAgree(e, db, map[], calls, others);
  }

  /******* A collision shows *******/

  // A database that logs every text it runs.
  function Logger(): Engine<seq<string>> {
    Engine((db: seq<string>, text: string) => true,
           (db: seq<string>, text: string, slots: Plan) => Outcome([], true, db + [text]))
  }

  // No other connection does anything around two calls.
  function Alone<D>(): seq<D -> D> {
    [(db: D) => db, (db: D) => db]
  }

  // A call that compiles and binds on its own.
  predicate Sound(call: Call) {
    call.text.Ok? && Fits(call.plan, 0, Marks(Lex(call.text.value + ";")))
  }

  /** Two sound calls that share a key but not their text are told from fresh ones: the second runs
      the text of the first, or fails to bind to it. */
  lemma CollisionShows(a: Call, b: Call)
    requires Sound(a) && Sound(b) && a.key == b.key && a.text != b.text
    ensures Stable(Logger())
    ensures CachedRun(Logger(), [], map[], [a, b], Alone()) != FreshRun(Logger(), [], [a, b], Alone())
  {
    var e, s, t := Logger(), a.text.value + ";", b.text.value + ";";
    SemicolonTells(a.text.value, b.text.value);
    var cached, afresh := CacheStep(e, [], map[], a), FreshStep(e, [], a);
    assert cached.db == afresh.0 == [s] && cached.cache == map[a.key := s];
    var second, again := CacheStep(e, [s], cached.cache, b), FreshStep(e, [s], b);
    assert again.0 == [s, t] && (second.db == [s] || second.db == [s, s]);
    TwoRuns(e, [], a, b);
  }

  lemma SemicolonTells(s: string, t: string)
    requires s != t
    ensures s + ";" != t + ";"
  {
    assert (s + ";")[..|s|] == s && (t + ";")[..|t|] == t;
  }

  lemma {:induction false} TwoRuns<D>(e: Engine<D>, db: D, a: Call, b: Call)
    ensures var c := CacheStep(e, db, map[], a);
            CachedRun(e, db, map[], [a, b], Alone()).db == CacheStep(e, c.db, c.cache, b).db
    ensures FreshRun(e, db, [a, b], Alone()).db == FreshStep(e, FreshStep(e, db, a).0, b).0
  {
    var c := CacheStep(e, db, map[], a);
    var d := CacheStep(e, c.db, c.cache, b);
    var (db1, _) := FreshStep(e, db, a);
    var (db2, _) := FreshStep(e, db1, b);
    var o := Alone<D>();
    assert [a, b][1..] == [b] && [b][1..] == [] && o[0](db) == db && o[1..][1..] == [];
    assert o[1..][0](c.db) == c.db && o[1..][0](db1) == db1;
    assert CachedRun(e, d.db, d.cache, [], []).db == d.db && FreshRun(e, db2, [], []).db == db2;
    assert CachedRun(e, c.db, c.cache, [b], o[1..]).db == d.db && FreshRun(e, db1, [b], o[1..]).db == db2;
  }
}
