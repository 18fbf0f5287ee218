# Verified model of the yan ORM

The library lets a program describe tables as C++ structs, record assignments and comparisons on
their members, and run the result against SQLite or MongoDB on a pool of worker threads. This project
models its three cores in Dafny and proves what they promise.

**Queries.** A list of conditions becomes parameters and a byte key (`YanObject`, `ParamKey`). The
generators print SQL by appending to shared buffers with "first" flags (`MakeSql`, `InsertSql`,
`SqlColumns`); each is an imperative class proved against text functions (`SqlText`). The texts are
then read the way a database reads them: `SqlLexer` and `SqlGrammar` hold a tokenizer, a recursive
descent parser and a three-valued evaluator in which AND binds tighter than OR (section 8.12 of
ISO/IEC 9075:1992), and `SqlRoundTrip` shows that parsing undoes printing. `WhereMeaning` says which
rows a list of conditions selects. `BindSql` is the second traversal, which binds the values;
`JoinSql` says what the names in joins and copies mean; `FetchSql` is the cursor that stores result
columns. `StmtCache` is the cache of prepared statements, with a database that is any function;
`CommandKey`, `JoinKeys` and `CommandCache` say when its keys collide. `Database` is one such function,
which evaluates the texts; with it `Execution` follows a request over key, text, cache, binding and
database to its answer, which is said of the conditions and members alone.

**Threads.** `ThreadPool` and `EventRuntime` are transition systems with one action for each access
to shared memory, so a sequence of actions is an interleaving and every theorem about sequences of
actions is about all schedules. `EventRuntime` also has the connection pool as a class.

**Documents.** `MongoDoc` and `MongoBuilder` write objects of nested structs and lists to documents
and read them back. **Strings.** `StrOps` is `split`.

What the proofs found, besides the properties:

- The digits at the end of an update key tell the assigned members apart exactly in structs of at
  most twelve members; in a larger one {1, 2} and {12} share a key (`ParamKey.DigitsTellIff`).
- Among reads, counts, deletes and updates of one table only two kinds share a key without their text:
  the unconditional count and the unconditional read, and updates whose members differ but not their
  digits (`CommandKey.OnlyCollision`). A union of one member is that read (`CommandKey.UnionOfOne`); joins
  share a key whatever their result type (`CommandKey.JoinKeyForgetsResult`).
- The conditions of a join are printed with bare column names. Two joined tables with a column of the
  name, as `tm` and `tc` with `n` in test/sqlite/sqlite_struct.h, make a text that the database refuses,
  and a condition on a table that is not joined is answered by another one
  (`JoinSql.SharedNameRefused`, `JoinSql.WrongTableAnswers`).
- The generators print texts that are not SQL: an ORDER before a UNION, a GROUP or ORDER after DELETE
  and UPDATE, a join without an equality, a copy into qualified columns, and no column at all for a
  count of a table with AUTO_INCREMENT members only. The round trips in `SqlRoundTrip` say exactly when.
- A generated INSERT is refused by the generated table exactly when a member that may not be null is
  left unassigned in the first object, or some object has another number of members assigned
  (`FetchSql.InsertTakenIff`). PRIMARY_KEY in the text of that table is spelled with an
  underscore, so it is part of a type name and no constraint (src/sqlite/sqlite_readref.cpp:28-31).
- The number that a delete reports is that of the rows the statement gives back: always zero
  (`Execution.DeleteAnswers`). A count counts the rows whose first member that is not AUTO_INCREMENT is
  not NULL (`Execution.ReadAnswers`).
- A GROUP or ORDER condition, which prints no `?`, makes binding fail (`BindSql.BindSucceedsIff`).
- The rows of a multi-row insert land in the right columns exactly when each object has the same
  members assigned as the first (`InsertSql.RowMeaning`).
- A list of structs read from a document gains exactly one element, whatever the array holds, so the
  document round trip holds exactly when every such list has one element
  (`MongoDoc.ObjectRoundTrip`).
- A member that was fetched is never marked dirty by a later assignment
  (`YanObject.YanObject.FetchThenAssign`).
- The guard of an insertion into a numbered queue lets the number of queues through
  (`ThreadPool.NumberedIndex`).
- `split` makes no progress with an empty delimiter (`StrOps.EmptyDelimiterStays`). It undoes joining
  exactly for delimiters of which no proper front part is also an end part (`StrOps.JoinThenSplitIff`).
- README.md of the repository (lines 104-121) says that a member may be declared to allow null; the
  macro it names is `false` (src/base/arch.h:80), so NOT NULL is printed for it all the same. The
  model follows the code: `canBeNull` is whatever the schema holds.

`dafny verify dfyconfig.toml` checks everything.

## Model

| member | source | states |
|---|---|---|
| YanTypes.NegatedOperatorComplements | src/base/type.h:138-165 | for every operator but EQUAL_LIST the second text of the table is the complement of the first in SQL's three-valued logic |
| YanTypes.SymbolMeans | src/base/type.h:138-165 | both texts of every operator but EQUAL_LIST compare as the operator says, the second negated |
| YanTypes.ValueLessIff | src/base/type.h:138-144 | the order the operators compare by: numbers by size, strings as in a dictionary |
| QueryModel.NamedCondsAt | src/base/ref_ops.h:418-436 | the k-th condition printed and bound is about the member whose seq the k-th parameter holds, with its operator, condition and value |
| SqlLexer.LiteralReadsBack | src/sqlite/sqlite_readref.cpp:71-75 | a string printed between quotes reads back as itself exactly when it holds no quote |
| MakeSql.MakeQuerySql.AppendCond | src/sqlite/sqlite_readref.cpp:251-296 | appends the text of one condition, connective first unless it is the first; throws exactly for a leading GROUP or ORDER |
| MakeSql.MakeQuerySql.AppendConds | src/base/ref_ops.h:418-436 | the loop over a parameter list appends the text of the whole list, and throws exactly when its first entry may not lead |
| MakeSql.MakeQuerySql.AppendList | src/sqlite/sqlite_readref.cpp:103-117 | the member callback prints all columns separated by commas, qualified where the member comes from a table |
| MakeSql.MakeQuerySql.Make | src/sqlite/sqlite_readref.cpp:95-134 | the buffer grows by the text of the SELECT; throws exactly when columns or table are missing or the list may not start so |
| MakeSql.MakeQuerySql.MakeUnion | src/sqlite/sqlite_readref.cpp:136-149 | the buffer grows by the texts of all members with UNION between; throws for no member or a member that throws |
| MakeSql.MakeQuerySql.LeftJoin | src/sqlite/sqlite_readref.cpp:217-249 | appends the FROM, the joins with their equalities and one condition list over all tables |
| MakeSql.MakeQuerySql.MakeJoin | src/sqlite/sqlite_readref.cpp:151-174 | the join text, and exactly when it throws |
| MakeSql.MakeQuerySql.MakeCopy | src/sqlite/sqlite_readref.cpp:176-215 | the copy text with the same column list twice, and exactly when it throws |
| MakeSql.MakeQuerySql.MakeDelete | src/sqlite/sqlite_readref.cpp:320-335 | the DELETE text, and exactly when it throws |
| MakeSql.MakeUpdateSql.AppendValues | src/base/ref_ops.h:401-416 | the SET list of the assigned members in their order; throws exactly for no member or a struct member |
| MakeSql.MakeUpdateSql.Make | src/sqlite/sqlite_readref.cpp:299-317 | the UPDATE text with SET before WHERE, and exactly when it throws |
| SqlText.QueryThrowsIff | src/sqlite/sqlite_readref.cpp:95-134 | a query throws exactly for a count without a table or of one without members, and for a leading GROUP or ORDER |
| SqlText.JoinThrowsIff | src/sqlite/sqlite_readref.cpp:151-215 | a join throws exactly without a table, for a count and for a leading GROUP or ORDER; a copy exactly for another number of sources than one, and for the same |
| SqlRoundTrip.ParseTailOf | src/sqlite/sqlite_readref.cpp:251-296 | the printed conditions parse to the OR-separated runs of the list with its GROUP and ORDER, or not at all exactly when the list is not SQL |
| SqlRoundTrip.QueryRoundTrip | src/sqlite/sqlite_readref.cpp:95-134 | parsing a SELECT text gives its columns, table and conditions, and fails exactly when it lists no column or the list is not SQL |
| SqlRoundTrip.UnionRoundTrip | src/sqlite/sqlite_readref.cpp:136-149 | parsing a UNION text gives every member in order, with placeholder numbers running on, and fails exactly when a member lists no column, some list is not SQL or a member before the last holds an ORDER |
| SqlRoundTrip.JoinRoundTrip | src/sqlite/sqlite_readref.cpp:151-249 | parsing any join text gives columns, tables, equalities and conditions, and fails exactly when it lists no column, the list is not SQL, a joined table has no equality, or the first table has one |
| SqlRoundTrip.CopyRoundTrip | src/sqlite/sqlite_readref.cpp:176-215 | parsing a copy text gives target, columns, source and conditions, and fails exactly when it lists no column, the list is not SQL or a target column is qualified |
| SqlRoundTrip.DeleteRoundTrip | src/sqlite/sqlite_readref.cpp:320-335 | parsing a DELETE text gives table and condition, and fails exactly when the list holds a GROUP, an ORDER or an EQUAL_LIST |
| SqlRoundTrip.UpdateRoundTrip | src/sqlite/sqlite_readref.cpp:299-317 | parsing an UPDATE text gives table, SET list and condition, with the SET placeholders numbered first, and fails exactly when the list holds a GROUP, an ORDER or an EQUAL_LIST |
| WhereMeaning.SearchMeaning | src/sqlite/sqlite_readref.cpp:251-273 | the printed condition is true of a row exactly when some OR-separated run has all its predicates true, NOT taking the complement |
| WhereMeaning.PlaceholderOrder | src/sqlite/sqlite_readref.cpp:258-272 | the i-th predicate of the text is the i-th condition and carries the next placeholder number |
| BindSql.PreparedStmt.Bind | src/sqlite/sqlite_readref.h:345-372 | binding fails outside the slots, while stepping and after finalize, and otherwise sets one slot |
| BindSql.BindSqlParam.Append | src/sqlite/sqlite_readref.h:331-372 | the counter moves before the value; fails exactly for a type without a binder or an index without a slot |
| BindSql.BindableTypeIff | src/sqlite/sqlite_readref.h:337-372 | the bindable types are those whose C++ type is int32_t, int64_t or std::string |
| BindSql.BindSqlParam.BindCond | src/sqlite/sqlite_readref.h:281-290 | the values of the list fill the next slots in order; fails exactly when one cannot be bound or has no slot |
| BindSql.BindSqlParam.BindConds | src/sqlite/sqlite_readref.h:292-314 | the same for a list of condition objects, the index running on from one to the next |
| BindSql.BindSqlParam.BindUpdate | src/sqlite/sqlite_readref.h:316-323 | the SET values fill the first slots, the condition's the following; throws when nothing is assigned, and never succeeds with a struct member assigned |
| BindSql.QueryMarks | src/sqlite/sqlite_readref.cpp:95-134 | a SELECT text has one placeholder for every AND, OR and NOT condition |
| BindSql.UnionMarks | src/sqlite/sqlite_readref.cpp:136-149 | a UNION text has one for every such condition of every member |
| BindSql.JoinMarks | src/sqlite/sqlite_readref.cpp:151-249 | a join text has one for every such condition of every table |
| BindSql.CopyMarks | src/sqlite/sqlite_readref.cpp:176-215 | a copy text has one for every such condition |
| BindSql.DeleteMarks | src/sqlite/sqlite_readref.cpp:320-335 | a DELETE text has one for every such condition |
| BindSql.UpdateMarks | src/sqlite/sqlite_readref.cpp:299-317 | an UPDATE text has one for every assigned member and one for every such condition |
| BindSql.BindSucceedsIff | src/sqlite/sqlite_readref.h:331-343 | binding succeeds exactly when every condition is AND, OR or NOT and of a bindable type |
| BindSql.ConditionsAlign | src/sqlite/sqlite_readref.h:331-336 | on a fresh statement the k-th slot ends up with the value of the k-th condition and no slot is left |
| BindSql.UpdateAligns | src/sqlite/sqlite_readref.h:316-336 | for an update the first slots hold the assigned values and the rest those of the condition |
| BindSql.QueryMeaning | src/sqlite/sqlite_readref.cpp:95-134 | the parsed SELECT, if it lists a column, is true of a row, with the values the binder binds, exactly when the list selects it |
| BindSql.UnionMeaning | src/sqlite/sqlite_readref.cpp:136-149 | every member of the parsed union selects with its own values although one index runs over all; no SQL exactly when a member lists no column |
| BindSql.DeleteMeaning | src/sqlite/sqlite_readref.cpp:320-335 | the same for a delete |
| BindSql.UpdateMeaning | src/sqlite/sqlite_readref.cpp:299-317 | each SET placeholder receives the value of its column, and the condition selects with the values after them |
| JoinSql.JoinMeaning | src/sqlite/sqlite_readref.cpp:151-249 | of a join that is SQL: refused by the database exactly when the name of a condition is in none of the tables or in several; all names mean the tables of their conditions exactly when each of these is joined once and no other table has such a column; and then the rows that pass are those of which each condition holds in its own table |
| JoinSql.ConditionAt | src/sqlite/sqlite_readref.cpp:240-246 | the one list of a join holds the conditions of its objects one after the other, each on the table of its object |
| JoinSql.MeantIff | src/sqlite/sqlite_readref.cpp:240-273 | a bare name means the table of its condition exactly when that table has the column, is joined once and no other table has such a column |
| JoinSql.UnderstoodIff | src/sqlite/sqlite_readref.cpp:240-273 | the database accepts the names of the conditions exactly when each is a column of exactly one joined table |
| JoinSql.SharedNameRefused | src/sqlite/sqlite_readref.cpp:240-273 | a condition on a name that two joined tables share makes a text that is SQL and that the database refuses |
| JoinSql.TwoOfOneName | src/sqlite/sqlite_readref.cpp:217-249 | such a join, which meets every requirement of the theorems: two tables with a column `n` and a condition on each |
| JoinSql.WrongTableAnswers | src/sqlite/sqlite_readref.cpp:240-273 | a name that means another table is no error: for an equality there is always a row that passes although the caller did not ask for it |
| JoinSql.CopyMeaning | src/sqlite/sqlite_readref.cpp:176-215 | the same for a copy into unqualified columns, whose guard is that every condition is on a column of the table that is copied |
| InsertSql.ValueReadsBack | src/sqlite/sqlite_readref.cpp:71-82 | the literal printed for an integer or a string reads back as that value |
| InsertSql.MakeInsertSql.AppendMember | src/sqlite/sqlite_readref.h:127-141 | one member adds a separated value, and its name only in the first object |
| InsertSql.MakeInsertSql.AppendObject | src/base/ref_ops.h:332-345 | the assigned members of an object in order; throws exactly for a struct member |
| InsertSql.MakeInsertSql.MakeOne | src/sqlite/sqlite_readref.h:82-95 | the INSERT text of one object; throws exactly when nothing is assigned or a member is a struct |
| InsertSql.MakeInsertSql.MakeList | src/sqlite/sqlite_readref.h:97-117 | the text for a list of objects: the first one's columns and a row for each; exactly when it throws; no text for no object |
| InsertSql.InsertThrowsIff | src/sqlite/sqlite_readref.h:82-117 | it throws exactly when the first object has nothing assigned, or some object has a struct assigned |
| InsertSql.InsertRoundTrip | src/sqlite/sqlite_readref.h:97-117 | the text parses to one column list and exactly n rows, and is not SQL exactly when an object has nothing assigned |
| InsertSql.RowMeaning | src/sqlite/sqlite_readref.h:68-72 | a row stores its object, value by column, exactly when the object has the members of the first one assigned |
| InsertSql.InsertMeaning | src/sqlite/sqlite_readref.h:97-117 | the same for the k-th row of the parsed text and the k-th object |
| SqlColumns.MakeTableSql.Append | src/sqlite/sqlite_readref.cpp:18-57 | a member adds its name, type and NOT NULL; throws exactly for a type without a column type or a string without a length |
| SqlColumns.MakeTableSql.Make | src/sqlite/sqlite_readref.h:29-44 | the CREATE TABLE text of the scalar members, passing over the others; exactly when it throws |
| SqlColumns.CreateThrowsIff | src/sqlite/sqlite_readref.h:29-44 | it throws exactly when no member has a column, or one that has is of a type without a column type |
| SqlColumns.CreateRoundTrip | src/sqlite/sqlite_readref.cpp:8-57 | parsing it gives the table and one field for each scalar member, in order, with its declaration |
| FetchSql.FetchSqlResult.Get | src/sqlite/sqlite_writeref.h:41-76 | the cursor moves to the next column; a NULL text sets nothing, a NULL number zero, other types throw |
| FetchSql.Wrap32Is | src/sqlite/sqlite_writeref.h:67-76 | an int32 member gets the number in its range that agrees with the stored one modulo 2^32 |
| FetchSql.FetchSqlResult.Fetch | src/base/ref_ops.h:347-358 | the k-th column goes to the k-th member and nothing else changes; throws exactly for a type that cannot be fetched |
| FetchSql.ColumnAlignment | src/base/ref_ops.h:92-118 | the k-th result column of every SELECT that is SQL is the k-th member's, where `*` stands for the columns that CREATE TABLE gives to the table after FROM: that of the condition, else that of the result |
| FetchSql.JoinColumnAlignment | src/base/ref_ops.h:102-118 | the same for a join that is SQL |
| FetchSql.InsertTakenIff | src/sqlite/sqlite_readref.cpp:18-57 | the created table takes the rows of an INSERT exactly when every object has as many members assigned as the first and that one every member that may not be null |
| FetchSql.InsertThenFetch | src/sqlite/sqlite_writeref.h:19-29 | any object of a list that the created table takes, with the members of the first assigned and of types that can be fetched, read back by any SELECT into its struct has every assigned value again, and the others as NULL is fetched |
| ParamKey.ChunksDecode | src/base/ref.h:57-75 | equal chunk strings come from the same list of seq, operator and condition |
| ParamKey.ChunksReadBack | src/base/ref.h:57-75 | the bytes of a key read back as seq, low byte first, operator and condition by their codes |
| ParamKey.ChunksThenDigits | src/base/ref_ops.h:268-276 | chunks and the digits after them cannot be confused |
| ParamKey.DigitsTellIff | src/base/ref_ops.h:271-273 | digits determine the assigned members exactly in structs of at most twelve members |
| CommandKey.SameShapeSameText | src/sqlite/sqlite_readref.cpp:251-335 | commands that differ in the values only have the same text |
| CommandKey.KeyDecodes | src/base/ref_ops.h:141-151 | for fixed tables, and updated structs of at most twelve members, equal keys imply the same comparisons, the same assigned members and the same SQL |
| CommandKey.UpdateKeyIff | src/base/ref_ops.h:268-276 | for any number of members two update keys are equal exactly when the conditions have one shape and the assigned members the same digits |
| CommandKey.OnlyCollision | src/base/ref_ops.h:141-151 | for one table, whatever its name and size, two commands share a key but not the text exactly when they are the unconditional count and the unconditional read, or updates of one shape with different members of equal digits |
| CommandKey.OneTwoTwelve | src/base/ref_ops.h:271-273 | with thirteen members the updates of {1, 2} and {12} share a key and not the text |
| CommandKey.UnionOfOne | src/sqlite/sqlite_context.h:160-172 | a union of one member has the key and the text of the plain read |
| CommandKey.JoinKeyForgetsResult | src/sqlite/sqlite_context.h:174-193 | joins that differ in the result type share a key, and share the text exactly when their columns read the same |
| CommandKey.BuildJoinKey | src/sqlite/sqlite_context.h:174-188 | the loops over tables, equalities and conditions build the key of a join |
| CommandKey.BuildUpdateKey | src/base/ref_ops.h:268-276 | the loop over the assigned seqs builds the key of an update |
| JoinKeys.ReadKeysIff | src/base/ref_ops.h:141-151 | conditional reads of any tables share a key exactly when the names of result and table run together the same and the comparisons are the same |
| JoinKeys.CondsKeyTells | src/sqlite/sqlite_context.h:160-188 | for fixed tables the key of a union or join tells the comparisons of every condition |
| JoinKeys.EqualitiesTell | src/base/ref_ops.h:302-317 | for fixed tables and numbers of equalities it tells the equalities, if no table on a left side is an end part of another |
| JoinKeys.EqualitiesBlur | src/base/ref_ops.h:302-317 | and otherwise need not: two lists of equalities with one key |
| StmtCache.SqliteContext.CreateStmt | src/sqlite/sqlite_context.h:221-238 | a new statement, ready, for the text with its semicolon; throws exactly when making or preparing fails |
| StmtCache.SqliteContext.Exec | src/sqlite/sqlite_context.h:240-275 | what each consumer makes of the rows, and which of them look at errors |
| StmtCache.SqliteContext.Discard | src/sqlite/sqlite_context.h:209-214 | the failed statement is finalized and out of the map; all others stay ready |
| StmtCache.SqliteContext.Execute | src/sqlite/sqlite_context.h:195-219 | contents, cache and reply are those of the step function; the statement is cached after the call exactly when the call did not throw, and is the one that was cached before; the others stay; every cached statement is live, reset, unbound and cached once |
| StmtCache.CachedAfter | src/sqlite/sqlite_context.h:195-219 | what a call leaves in the cache |
| StmtCache.CachedIsNotCompiled | src/sqlite/sqlite_context.h:198-204 | a call whose statement is cached depends neither on the text a generator would make nor on preparing |
| StmtCache.CacheIsInvisible | src/sqlite/sqlite_context.h:195-238 | over every sequence of calls, failures included, and whatever other connections do to the contents in between, the cache behaves as compiling afresh when keys do not collide |
| StmtCache.CollisionShows | src/sqlite/sqlite_context.h:198-204 | two sound calls with one key and two texts are told from fresh ones by some database |
| CommandCache.CollisionFreeIff | src/sqlite/sqlite_context.h:113-159 | requests for one table do not collide exactly when unconditional counts and reads are not mixed and no two updates clash in their digits |
| CommandCache.OneTableInvisible | src/sqlite/sqlite_context.h:113-219 | over any run of such requests, with other connections changing the contents in between, the cache behaves as compiling afresh |
| Execution.ReadAnswers | src/sqlite/sqlite_context.h:152-159 | a read over text, binding and database replies the rows that its conditions select, each with the members of the result, or their count, and throws exactly when it cannot be answered |
| Execution.DeleteAnswers | src/sqlite/sqlite_context.h:120-125 | a delete removes exactly the rows its conditions select |
| Execution.UpdateAnswers | src/sqlite/sqlite_context.h:113-118 | an update assigns exactly the members set, in exactly the rows its conditions select |
| Execution.UnionAnswers | src/sqlite/sqlite_context.h:160-172 | a union replies the rows its members select, each with its own conditions, and of several members no row twice |
| Execution.RequestsAnswered | src/sqlite/sqlite_context.h:113-238 | over any sequence of requests of any tables, with other connections changing the rows in between, cached statements do and reply what the requests ask, if keys do not collide |
| Execution.Perform | src/sqlite/sqlite_context.h:113-159 | the same for one request on the connection object |
| ThreadPool.StepKeeps | src/com/thread_pool.cpp:18-46 | every step of every thread keeps the invariant: each task at one place, and what a worker that left may leave behind |
| ThreadPool.ExactlyOnceDrain | src/com/thread_pool.cpp:18-29 | no task is ended twice or run by two workers, and when `stop` has returned each task has run that was put into a queue before the worker of this queue left |
| ThreadPool.HeadIsServed | src/com/thread_pool.cpp:18-29 | a worker that neither runs a task nor has returned takes the first task of its queue by its own next steps, at once when it waits |
| ThreadPool.QueuesAdvance | src/com/thread_pool.cpp:18-29 | tasks leave a queue from the front, in the order in which they came |
| ThreadPool.SizeReadFirstStrands | src/com/thread_pool.cpp:19 | with the two reads the other way round, in every pool and for every worker, a run ends with the worker gone and a due task in its queue |
| ThreadPool.StrandedForGood | src/com/thread_pool.cpp:18-29 | such a task is run by no continuation of that run |
| ThreadPool.ShutdownDescends | src/com/thread_pool.cpp:18-46 | after `stop_` every step of any thread lowers the rank |
| ThreadPool.ShutdownTerminates | src/com/thread_pool.cpp:18-46 | no run after `stop_` is longer than the rank; when none can go on, `stop` has returned, all workers left, and queues hold only later tasks |
| ThreadPool.NoDeadlock | src/com/thread_pool.cpp:40-46 | until `stop` has returned some thread can take a step |
| ThreadPool.PlacedTask | src/com/thread_pool.h:96-121 | over every run the k-th task placed by the counter goes to queue k % n, any other to the queue asked for, and is queued, run and done there |
| ThreadPool.InsertByCounter | src/com/thread_pool.h:96-107 | an insertion by the counter is a run, at whose end the new task stands last in the next queue |
| ThreadPool.RoundRobinBalance | src/com/thread_pool.h:100-101 | under any interleaving of fewer than 2^31 placements, whose index is the C++ remainder of the 32-bit counter, the numbers of tasks that go to two queues differ by at most one |
| EventRuntime.ConnectionPool.Get | src/com/conn_pool.h:28-52 | the front connection, else a new one, else nothing changes and the lock is free |
| EventRuntime.ConnectionPool.Release | src/com/conn_pool.h:54-65 | the connection goes to the back; a null one changes nothing |
| EventRuntime.StepKeeps | src/sqlite/sqlite_event.h:51-67 | every step of every thread keeps lock, connections, counts and event logs consistent |
| EventRuntime.PoolIsSafe | src/com/conn_pool.h:28-65 | at most one thread inside the lock; each connection idle once or held by one thread; the count is idle plus held |
| EventRuntime.EventsReturnConnections | src/sqlite/sqlite_event.h:51-194 | there are as many connections as were held at once at the peak, and no more than workers; every finished event gave back what it got |
| EventRuntime.SettledAsWorked | src/sqlite/sqlite_event.h:51-194 | over every run an event is settled once, with a value exactly when it got a connection and its statements returned, and with an exception otherwise |
| EventRuntime.EventsFinish | src/sqlite/sqlite_event.h:51-194 | without new events and vain attempts at the lock every run ends within eight steps a thread, all promises settled and all connections idle |
| EventRuntime.IdleInOrder | src/com/conn_pool.h:32-34 | idle connections are taken in the order in which they were given back |
| EventRuntime.OneEvent | src/sqlite/sqlite_event.h:51-67 | the handling of an event from `get` to the promise is a run, and how it ends |
| EventRuntime.FailedCreation | src/com/conn_pool.h:40-45 | a failed creation changes neither connections nor count, and frees the lock |
| EventRuntime.LockIsFreed | src/com/conn_pool.h:30-49 | the owner of the lock can always go on and frees it within two steps |
| YanObject.YanObject.AppendSeq | src/base/ref.h:46-49 | the member is dirty, and each struct on the way up in its parent |
| YanObject.YanObject.Assign | src/base/ref.h:138-157 | throws exactly under a pending condition or for AUTO_INCREMENT; the first value marks the member dirty all the way up |
| YanObject.YanObject.FetchThenAssign | src/base/ref.h:152-155 | a fetched member is not made dirty by a later assignment |
| YanObject.YanObject.AppendNested | src/base/ref.h:50-56 | a nested parameter reaches the root once, with its dotted name in parameter and key |
| YanObject.YanObject.Compare | src/base/ref.h:84-89 | throws exactly without a pending condition; otherwise adds one parameter and its key at the root and clears the condition |
| YanObject.YanObject.Arrange | src/base/ref.h:125-136 | GROUP and ORDER add one parameter with the default value and its key at the root at once |
| YanObject.ClimbKeepsExact | src/base/ref.h:383-389 | a first assignment anywhere in a tree keeps every dirty set exact |
| YanObject.PerformAll | src/base/ref.h:46-136 | after any sequence of assignments, fetches, comparisons, groupings and orderings a seq is dirty exactly when it was assigned before it had a value, or something beneath it was; the key matches the parameters, and there is one for each GROUP, ORDER and completed comparison |
| YanObject.EmptyTree | src/base/ref.h:23-45 | structs with nothing assigned or compared form a tree in which all of this holds |
| YanObject.FlatKey | src/base/ref.h:57-66 | when all comparisons are on the root the key is the four-byte chunks of the parameters in order |
| YanObject.PathIs | src/base/ref.h:50-56 | the path to a nested member: the names of the structs from the outermost on, its own last |
| YanObject.DottedTells | src/base/ref.h:50-56 | dotted names of different members differ |
| YanObject.EntryKeyTells | src/base/ref.h:50-56 | what a comparison on a nested member adds to the key tells member, operator and condition |
| MongoBuilder.WriteMember | src/base/ref_ops.h:525-608 | a member streams its line, or nothing when it is unset or empty |
| MongoBuilder.WriteArray | src/mongo/mongo_readref.h:67-92 | one document for each element of a list of structs |
| MongoBuilder.Make | src/mongo/mongo_readref.h:37-46 | the document of the dirty members in order |
| MongoBuilder.FetchMember | src/base/ref_ops.h:665-744 | what each kind of member is set to, and what throws |
| MongoBuilder.FetchElement | src/mongo/mongo_writeref.h:91-101 | all documents of the array are read into one new element |
| MongoBuilder.FetchStruct | src/base/ref_ops.h:347-358 | every member is looked up by its name and set |
| MongoDoc.ReadSucceeds | src/mongo/mongo_writeref.h:32-163 | a written member of readable types can be read into any object |
| MongoDoc.DocumentNames | src/mongo/mongo_readref.h:37-108 | a document has one entry for each dirty member that is set or not empty, in the order of the struct, and no other |
| MongoDoc.MemberRoundTrip | src/base/ref_ops.h:525-744 | a member written and read into a fresh one is the same exactly when its lists of structs have one element |
| MongoDoc.ObjectRoundTrip | src/mongo/mongo_writeref.h:22-29 | fetching the document of an object restores every value and leaves unset scalars unset, exactly when each visited list of structs has one element |
| MongoDoc.UnexpectedValue | src/mongo/mongo_writeref.h:43-163 | a scalar of another stored type throws, as does a struct that is no document; a list that is no array is read as empty |
| MongoDoc.OneElementOnly | src/base/ref.h:361-369 | a list of structs gains exactly one element and keeps those it had |
| MongoDoc.LastOverwrites | src/mongo/mongo_writeref.h:91-101 | all documents of an array are read over each other: a scalar has the value of the last one with its name |
| MongoDoc.UnreadableThrows | src/mongo/mongo_writeref.h:43-47 | a member of an unsupported type makes every fetch throw |
| StrOps.SplitString | src/com/strops.h:9-22 | the loop ends for every non-empty delimiter and gives the cuts at successive first occurrences |
| StrOps.SplitThenJoin | src/com/strops.h:9-22 | joining the tokens gives the string back and no token contains the delimiter |
| StrOps.JoinThenSplitIff | src/com/strops.h:9-22 | splitting inverts joining on all delimiter-free lists exactly when the delimiter has no border, as every one-character delimiter |

## Left out

- The SQLite, MongoDB and BSON libraries: preparing and running a statement are arbitrary functions, a document is a list of named values; conversions between number and text columns are not modelled.
- GROUP BY and ORDER BY take a name, as in sections 7.7 and 13.1 of ISO/IEC 9075:1992; SQLite also takes an expression there, and so accepts some texts called not SQL here, such as that of a condition after a GROUP.
- Names of tables and columns are identifiers that are not SQL keywords; the library checks neither.
- String values with a quote, and floating-point values, in INSERT texts: the round trips require quote-free strings, and numbers are integers.
- List members in the assigned set of an insert or update: the copied object holds no list, and `size` reads the address of the object instead of the list (src/base/ref.h:702). In documents the intended size is modelled.
- Nested structs on the SQLite side other than that their readers throw.
- StmtCache.SqliteContext.Execute: the right side of `read_stmts_[hash] = create_stmt(...)` is taken to be evaluated first, which C++11 leaves open, so a failing prepare leaves no entry.
- StmtCache.CacheIsInvisible: takes it that a text that could be prepared can be prepared again after other statements have run, on this connection or another.
- CommandKey.OnlyCollision: covers read, count, delete and update over one table; of commands over several tables, whose names run together, `JoinKeys` covers conditional reads, and unions and joins over fixed tables.
- Execution.RequestsAnswered: the database runs no join and no copy, and columns are looked up in the one table of a SELECT.
- JoinSql.JoinMeaning: which rows a LEFT JOIN pairs, and the names in its select list and its equalities, are left to the database.
- ThreadPool.ExactlyOnceDrain: `stop_` is an atomic variable, a queue an atomic FIFO with an exact size, and a task does not throw.
- ThreadPool.RoundRobinBalance: covers placements by counter; a task refused by a full queue is recorded as refused, and the future that `submit` returns for it never settles.
- EventRuntime.EventsReturnConnections: covers the write, update, read and delete events; the throw of the table-creation event for an empty list (src/sqlite/sqlite_event.h:218-219) lies before any connection is taken.
- Weak memory orders of the spin lock, and internals of the queue and of futures.
- YanObject.PerformAll: structs in lists are added as finished objects and do not report to the object that holds the list, so the tree consists of structs nested by value.
- MongoDoc.ObjectRoundTrip: takes objects whose members outside the dirty set are untouched, as the builder leaves them.
- The condition documents for MongoDB, pragmas, logging, thread names, the thin builders for union, join and copy, and lists within lists.
