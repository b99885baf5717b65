# pgmem: a verified model

pgmem emulates PostgreSQL on one embedded SQLite connection. It parses each statement, rewrites the
tree in place twice, runs the result on its only connection, and guards everything else - backups,
schemas, transactions - with a few locks. This project models that logic in Dafny and proves what its
documentation and comments promise: rewriting preserves meaning and name resolution, backups are of one
moment and restores all or nothing. Where a promise does not hold for every input - atomic scripts, serial
histories, repeatable restores, the fast path, freedom from deadlock - it proves exactly when it does.

`dafny verify dfyconfig.toml` checks all of it.

## What is modelled

* **Trees** (`Ast`). A parsed statement is a value `Tree` and, where the program changes it in place, a
  heap of `Message` objects that denotes such a value. A message has its scalar fields, the one or two
  fields a rewriter names, and the list of all its other message-valued fields. The oneof wrappers
  (`Node`) are collapsed. Protobuf reflection visits fields in no specified order, so the in-place
  methods visit the children of a message in an arbitrary order and their contracts hold for every one.
* **Registered functions** (`Overloads`, `FunctionRewrite`, `Dispatch`, `Process`, `Prefilter`). The
  registry is nested maps specified by its registration log; the rewrite replaces registered plain calls by
  calls of one dispatcher; an evaluator with an arbitrary engine semantics says what both trees mean; a
  global map takes the dispatcher to the open databases.
* **Translation** (`Translator`, `TranslateInPlace`, `RelationReferences`, `Resolution`, `NormalForm`,
  `Expressions`, `Observers`, `Pipeline`). The PostgreSQL-to-SQLite rewrite as a function and as it runs on the heap; the relations a
  statement names and what they resolve to under both systems' rules; both rewrites in sequence.
* **Backup and restore** (`Backup`), and all calls on one database as interleaved actors with program
  counters (`Locks`, `Interleavings`, `Creation`, `Deadlock`, `Blocking`). An actor holds a lock while its
  counter lies between acquisition and release. A pending writer keeps new readers out, as Go's RWMutex does.
* **Transactions and scripts** (`Sessions`, `History`, `Driver`, `Script`). A session is what the engine
  stores and the transaction it is in; statements are plain or control the transaction, savepoints
  included. Connections and transactions are linked mutable objects over the pool of one connection; every
  use of that connection is an event, and the trace of events is what the serial-history theorem speaks of.
* **Interceptors** (`Intercept`) with the in-place shift of their array, and **template queries**
  (`TableQuery`, `Quoting`) with a small reader that plays the SQL parser.

## Where the code differs from what it says

* COMPATIBILITY.md:23 promises that a failed statement rolls back the script. Nothing in
  schema.go:52-95, 243-277 or in the translator refuses a COMMIT or ROLLBACK among the statements, and
  either ends the script's own transaction: of `INSERT …; COMMIT; INSERT …`, where the second insertion
  violates a primary key, the first row stays although the script fails
  (`Sessions.CommittedRowOutlivesTheFailure`). `Sessions.ScriptIsAtomicIffNothingEscapes` proves that a
  script that fails leaves store and engine as they were, whatever plain statements do, if and only if its
  statements let nothing escape, and either the engine discards a transaction whose commit it refuses or the
  script never comes to that commit. Whether something escapes is computed from the kinds of the statements
  alone: never without COMMIT and ROLLBACK (`Sessions.NothingEscapesWithoutEnd`), and with them, but without
  other controlling statements, exactly if a plain statement stands between the first of them and the next,
  or before the first if that is a COMMIT (`Sessions.ScriptEscapesIff`). A transaction of the adapter that is
  rolled back is undone under the same kind of condition (`History.RolledBackContributesNothingIff`).
* database.go:65-68 wants one connection to retain transaction semantics. A statement such as a lone BEGIN
  leaves the pooled connection inside a transaction that the adapter knows nothing of, and every later
  transaction is refused. `History.StoreIsSerialIffLogsAgree` proves that the store is serial after a trace,
  whatever plain statements do, if and only if the plain statements that took effect are those of the
  committed units, which their kinds decide. `History.HistoryIsSerialIffContained` proves that store and
  transactions agree with the adapter at every moment if and only if no statement ends the adapter
  transaction it runs in, none that runs alone opens one, and no refused commit leaves one open.
* function.go:131-132 calls the substring test only a fast prefilter, every possible dispatcher use being
  classified structurally. `Prefilter.FastPathIsTheFullPath` proves that both paths have the same outcome
  if and only if the text parses and no function is called by a spelling of the dispatcher's name with
  U+017F (long s), which folds to `s` without lower-casing to it. A text that does not parse, such as the
  output of a custom translator in translator_test.go:36-51, runs while no function is registered and is
  refused afterwards (`Prefilter.UnparsedTextPassesTheFilter`). A long-s call
  (`Prefilter.LongSPassesTheFilter`) still fails in the engine, which compares function names without regard
  to ASCII case only.
* backup.go:111 promises that a restore is repeatable. The code compares schema versions each time, so
  this rests on the engine: `Backup.RepeatableIffVersionsKept` proves that a backup can be restored after
  any history of writes and restores if and only if attaching an image keeps the version it carries.
* CreateSchema deliberately does not hold the state lock while it waits for the connection
  (database.go:117-119); Backup and Restore do (backup.go:60-68, 121-136). A Close that arrives then keeps
  out the read lock that a statement of the pinning transaction needs. `Deadlock.StuckIsDeadlocked` proves
  that this cycle is the only way to get stuck, and `Blocking.CallsCanBlockIff` that a set of calls can get
  there if and only if it contains a Close, a Backup without a deadline or a Restore without one whose
  schemas can come to be the current ones, and a client that asks for the state while it has the connection:
  a transaction of the adapter that runs a statement (driver.go:169-173, 253-268), or a statement whose
  callback registers a function (function.go:88-93). Statements and scripts of a schema ask before they take
  the connection (schema.go:182-185), so without such callbacks they cannot close the cycle.
* A relation qualified `main` or `temp` is one PostgreSQL does not know, but SQLite resolves it to the
  public schema or to its database of temporary tables. So does another spelling, such as an upper-case
  one, of a schema's name. `Resolution.ResolutionIsPreserved` proves that resolution differs exactly for
  such spellings.
* A second translation pass is not the identity for a foreign key inside a schema other than the receiver's:
  the first pass leaves its target bare, the second would qualify it from the default schema.
  `NormalForm.SecondPassIsIdentityIffHome` is exact.

## Model

| member | source | states |
|---|---|---|
| `Overloads.FunctionRegistry.RegisterFunction` | function.go:74-117 | each error happens exactly under its condition and changes nothing; otherwise the registration joins the log and the nested maps stay those the log prescribes |
| `Overloads.LookupRefinesLog` | function.go:271-285 | for every log, the map lookup answers with the latest fixed overload of that arity, else the latest variadic one whose minimum the arity reaches |
| `Overloads.LastRegistrationAnswers` | function.go:108-116 | a fixed registration answers at once the calls of its arity, a variadic one those with enough arguments that no fixed one answers |
| `Overloads.AllowedNamesSpelled` | function.go:78-80 | a name is accepted exactly if it consists of ASCII letters, digits, underscores and dollar signs, starts with a letter or underscore, and is not the dispatcher's in any case |
| `Overloads.HasIffRegistered` | function.go:258-263 | a name is found exactly when some registration in the log has it |
| `Overloads.HasAnyIffHas` | function.go:265-269 | the emptiness test holds exactly when no lookup can succeed: no inner map is ever empty |
| `Overloads.RegistrationIsMonotone` | function.go:96-116 | later registrations never lose a name nor a fixed arity |
| `Overloads.ArityLostOnlyToLargerMinimum` | function.go:108-116 | a call stops resolving if and only if the new registration is a variadic one with a larger minimum over the variadic one the call used |
| `FunctionRewrite.RewriteFunctionTree` | function.go:165-213 | on the heap, in any visiting order: fails exactly when the original tree calls the dispatcher; otherwise the tree becomes the specified one and `changed` says whether a registered call existed |
| `FunctionRewrite.RewriteCall` | function.go:187-212 | one node after its children: fails exactly on a dispatcher call, reports exactly whether it was a registered plain call |
| `FunctionRewrite.RouteThroughDispatcher` | function.go:200-210 | the call's name, arguments and location become the dispatcher's name, the three routing constants before the old arguments, and -1; all else stays |
| `FunctionRewrite.MessageNameParts` | function.go:246-256 | the name's parts when all of them are strings, otherwise none |
| `FunctionRewrite.GateIsExact` | function.go:191-194 | the gate fires exactly if somewhere a function call has a name of strings only, the last of which folds to the dispatcher's |
| `FunctionRewrite.RegisteredCallsAreFound` | function.go:195-201 | a registered call exists exactly if somewhere a call that is plain, field by field, names a registration by schema and folded name, an unqualified one in the receiver's schema and main standing for public |
| `FunctionRewrite.OneRegistrationOneCall` | function.go:195-211 | for one registration and one call: whether it is rewritten, and the whole resulting call, spelled out |
| `FunctionRewrite.DecisionsSurviveKids` | function.go:187-198 | rewriting the children changes no decision about the call itself, so a call inserted below never triggers the gate |
| `FunctionRewrite.UnregisteredIsUntouched` | function.go:191-198 | a tree without registered calls is returned as it is |
| `FunctionRewrite.SecondRunRejectsIffChanged` | function.go:192-212 | the gate rejects the rewriter's own output if and only if the rewriter changed something |
| `Dispatch.DispatcherFindsItsTarget` | function.go:287-318 | with the routing constants in front, the dispatcher calls what the registrations of that database prescribe for that schema, name and arity, or fails as they prescribe |
| `Dispatch.DispatchingIsCalling` | function.go:200-208 | the same for argument expressions in every row, including which failing argument decides |
| `Dispatch.RepliesReachTheStatement` | function.go:320-377 | what each reply of a callback becomes: values as they are, numbers widened, an unsigned one refused above the largest int64, error, panic and invalid value each as its own failure |
| `Dispatch.RewritePreservesMeaning` | function.go:165-213 | for every tree without dispatcher call, engine, registry and later registrations: the rewritten tree evaluates through the dispatcher to what the original means with registered calls resolved directly, at any depth |
| `Process.Process.New` | database.go:72-85 | a new database becomes reachable under its own id and changes nothing else |
| `Process.Process.Close` | database.go:174-184 | closing takes exactly that database's id away; again, it does nothing |
| `Process.Process.RegisterFunction` | function.go:88-116 | each error under its exact condition and without effect; otherwise exactly this registration joins what the database's id reaches, and nothing else changes |
| `Process.Process.DispatchScalarFunction` | function.go:287-318 | every outcome of the dispatcher: missing or wrong routing arguments, closed database, no overload, and each kind of reply of the callback that the registrations prescribe |
| `Process.CallsReachTheirDatabase` | function.go:298-302 | after any openings, closings and registrations, a rewritten call reaches its own database's overload or fails because that database is closed |
| `Dispatch.OtherDatabasesDoNotMatter` | function.go:298-302 | what a rewritten statement computes depends on no other database |
| `Prefilter.RewriteRegisteredFunctions` | function.go:127-163 | fast return, parse error, gate error and rewriting each happen exactly under their condition, and whatever trees go to the engine evaluate to what the source trees mean |
| `Prefilter.FastPathAgrees` | function.go:131-135 | for one tree whose text spells its names, where the fast return is taken the full path changes nothing and rejects exactly the long-s spellings |
| `Prefilter.FastPathIsTheFullPath` | function.go:131-156 | where the fast return is taken, both paths have the same outcome if and only if the text parses and calls no long-s spelling |
| `Prefilter.UnparsedTextPassesTheFilter` | function.go:133-139 | engine syntax runs while nothing is registered and is refused once something is |
| `Prefilter.AsciiHasNoLongS` | function.go:131-135 | with ASCII names there is no such spelling, so both paths agree |
| `Prefilter.LongSPassesTheFilter` | function.go:131-135 | a concrete statement on which they do not agree |
| `Text.FoldIsLower` | function.go:133-133 | folding equality and lower-casing equality against an ASCII lower-case name disagree exactly on strings that fold to it by a long s or lower-case to it by a dotted capital I |
| `Text.LoweredAscii` | function.go:96-96 | lowering an ASCII string moves its capital letters by 32 and nothing else |
| `Text.FoldedAscii` | function.go:78-78 | ASCII strings fold together exactly if they differ in the case of letters only |
| `TranslateInPlace.RewritePostgreSQLTree` | translator.go:48-98 | on the heap, in any visiting order, the tree becomes the specified translation |
| `TranslateInPlace.ClearSameSchemaForeignKeyQualifiers` | translator.go:100-124 | on the heap, in any visiting order, exactly the foreign-key targets that name the table's schema lose their qualifier |
| `TranslateInPlace.ReplaceTypeName` | translator.go:151-156 | a type's name becomes the single mapped name; nothing else changes |
| `TranslateInPlace.RenameLikeOperators` | translator.go:62-75 | every operator name of an ILIKE is renamed and nothing else |
| `TranslateInPlace.RewriteOwnNode` | translator.go:48-78 | what happens to a message before its children are visited |
| `TranslateInPlace.ClearTableElements` | translator.go:93-97 | clearing, run after the visit, uses the qualifier that the visit has rewritten |
| `RelationReferences.QualifiedReferences` | translator.go:51-59 | away from CREATE TABLE, translation qualifies every reference and adds, drops or reorders none |
| `RelationReferences.ClearedReferences` | translator.go:100-124 | in a table element, clearing bares exactly the targets that name the table's schema |
| `Resolution.TranslatedReferences` | translator.go:48-124 | the references of a translated statement are those of the source, each qualified from the default schema and bare exactly where a foreign key stays in its table's schema |
| `Resolution.QualifiedSchemaResolves` | translator.go:52-59 | a rewritten qualifier resolves under SQLite's rules to PostgreSQL's schema, exactly unless it is a foreign spelling of a database name |
| `Resolution.SameQualifierSameSchema` | translator.go:107-110 | two rewritten qualifiers are equal if and only if they mean the same schema, so comparing them is sound |
| `Resolution.OneReferenceIsPreserved` | translator.go:100-110 | one reference resolves as before; a foreign key is rejected when it leaves its schema and is never retargeted |
| `Resolution.ResolutionIsPreserved` | translator.go:48-124 | the same for every reference of every grammatical statement |
| `NormalForm.TranslatedIsNormal` | translator.go:51-156 | one pass leaves no mapped type, no ILIKE, no `public`, and no unqualified relation but cleared foreign-key targets |
| `NormalForm.MappedTypesAreNotMapped` | translator.go:135-156 | a replaced type name is not replaced again |
| `Expressions.ExpressionsAreTranslated` | translator.go:62-75 | every expression stays in its place; an ILIKE becomes a LIKE that is negated exactly if the ILIKE was, its operator without the star; any other expression is unchanged |
| `Expressions.TypesKeepTheirStorage` | translator.go:135-156 | the last part of a type's name decides, in any case, whether it is replaced, and the replacement holds the same kind of values |
| `Expressions.TypeIsReplaced` | translator.go:126-156 | a type name is replaced as a whole by that one name, or kept |
| `Observers.ReferencesAreTheRelations` | translator.go:51-59 | the references of a statement are its relation messages, wherever they stand |
| `Observers.OwnedReferencesAreTheForeignKeys` | translator.go:93-110 | those with an owner are the targets of constraints in the elements of a created table, the owner its qualifier |
| `Observers.NothingIsLeftToTranslate` | translator.go:51-156 | after one pass no message anywhere is an ILIKE, says public, or has a type that is replaced, and only foreign-key targets are bare |
| `NormalForm.SecondPassIsIdentityIffHome` | translator.go:48-124 | a second pass is the identity if and only if every cleared foreign key belongs to a table of the default schema |
| `Pipeline.TranslateKeepsCalls` | schema.go:182-198 | translation changes no answer about dispatcher or registered calls |
| `Pipeline.RewriteKeepsReferences` | function.go:200-210 | routing calls through the dispatcher changes no relation reference |
| `Pipeline.StatementIsPreserved` | schema.go:182-198 | both rewrites in sequence: the gate on the translated statement is the gate on the source, the final tree's relations resolve as in the source, and it evaluates to what the translated statement means |
| `Backup.Database.ReadSchemaVersions` | backup.go:217-230 | all versions of the named schemas, or an error exactly when one is unreadable |
| `Backup.Database.BackupContext` | backup.go:51-103 | succeeds exactly when open and nothing fails; the backup holds every schema as it is, with its version |
| `Backup.Database.RestoreContext` | backup.go:113-206 | succeeds exactly when open, same schemas, same versions and nothing fails before the commit; then every schema is replaced, otherwise none has changed |
| `Backup.RestoreGoesThroughIff` | backup.go:122-187 | the condition of success, spelled out over names, versions, connection, replacements and cancellation |
| `Backup.Database.CheckVersions` | backup.go:138-152 | passes exactly when every version is readable and that of the backup, and otherwise names a schema where it is not |
| `Backup.Database.Commit` | backup.go:189-205 | the loop splits the schemas into the restored ones and the live rest and ends with all restored |
| `Backup.RestoredRows` | backup.go:110-112 | after any writes, DDL and restores following a backup, a restore that goes through gives every schema the rows it had when the backup was taken, and one that does not changes nothing |
| `Backup.RepeatableIffVersionsKept` | backup.go:110-112 | restorable after any sequence of writes and restores if and only if the engine keeps attached versions |
| `Backup.VersionsSurvive` | backup.go:142-152 | the version check goes on passing when it does |
| `Backup.EqualStrings` | backup.go:375-385 | the comparison loop decides equality |
| `Backup.FirstDifference` | backup.go:142-152 | the version loop finds nothing exactly when all versions agree |
| `Names.AscendingListsAreSets` | backup.go:122-125 | comparing the two sorted name lists compares the sets of schemas |
| `Names.Sorted` | backup.go:208-215 | the names of a set in ascending order |
| `Names.BeforeIsLexicographic` | backup.go:213-213 | ascending means by the first character that differs |
| `Locks.RunKeepsInv` | database.go:105-184 | in every interleaving locks exclude, and each actor's findings still hold at its program counter |
| `Locks.StepKeepsInv` | backup.go:56-102 | one step of any actor keeps that invariant |
| `Locks.StepEffects` | database.go:105-184 | schema names change only under topology and state locks, contents only under the connection, attachments only by CreateSchema; closing is final |
| `Interleavings.RestoreIsNeverSeenHalfDone` | backup.go:119-205 | while schemas are swapped nobody else holds the connection, the topology or the state for writing, the checked names still hold, and the store is split as in the commit loop |
| `Interleavings.RestoreReplacesEverything` | backup.go:189-205 | from its first to its last swap a restore replaces all schemas, as one step, and it begins only with the names and versions of its backup |
| `Interleavings.NothingBeginsAfterClose` | database.go:120-133 | a call that has not asked before the database is closed never gets the connection, the registry or a schema |
| `Interleavings.BackupIsOneMoment` | backup.go:56-102 | a backup's images are the whole store of one instant |
| `Interleavings.TopologyIsConsistent` | database.go:105-144 | with the topology lock free and the database open, the attached databases are exactly the schemas, all folded and unreserved names |
| `Interleavings.TopologyIsResolvable` | database.go:106-115 | the reachable schema names satisfy what name resolution assumes |
| `Interleavings.HistoryIsMonotone` | database.go:137-144 | schemas are never removed and closing is final |
| `Creation.SchemaCanBeCreatedIff` | database.go:105-144 | a schema can come to exist exactly if some call asks for it by a simple, unreserved name in any case |
| `Creation.SchemaNamesAreFolded` | database.go:106-115 | the created name, spelled out: the requested one with its capital letters made small |
| `Deadlock.UnblockedCanStep` | driver.go:137-167 | nothing but a lock or the connection ever stops a call |
| `Deadlock.StuckIsDeadlocked` | backup.go:60-68 | every stuck state contains the cycle of a waiting Backup or Restore, a pending Close and a statement of the pinning transaction |
| `Deadlock.DeadlockIsPermanent` | backup.go:60-68 | none of the three ever moves again |
| `Blocking.CallsCanBlockIff` | database.go:117-143 | from every set of calls, a state in which none can ever go on is reachable if and only if there are a Close, a client that asks for the state while it has the connection, and a Backup without a deadline or a Restore without one whose schemas are created by the other calls |
| `Blocking.StuckNeeds` | backup.go:60-68 | the calls of a run that gets stuck meet that condition |
| `Blocking.NoDeadlockWithDeadlines` | database.go:117-143 | without Backup and Restore, or when all of them have deadlines, no reachable state is stuck, although a pending writer blocks new readers |
| `Blocking.DeadlockIsReachable` | backup.go:60-68 | one transaction that runs a statement, one Backup and one Close can block each other |
| `Sessions.ScriptIsAtomicIffNothingEscapes` | schema.go:72-94 | a script that fails leaves store and engine as they were, whatever plain statements do, if and only if its statements let nothing escape, and the engine discards what it refuses to commit or the script never comes to its commit |
| `Sessions.ScriptEscapesIff` | schema.go:72-94 | for scripts whose only controlling statements are COMMIT and ROLLBACK, the condition in closed form |
| `Sessions.RollbackUndoesIffNothingEscapes` | driver.go:285-308 | statement after statement, then a rollback: the store is as before, under every engine, if and only if they let nothing escape |
| `Sessions.NothingEscapesWithoutEnd` | schema.go:72-94 | without a commit or rollback among them, statements let nothing escape, whatever savepoints they use |
| `Sessions.CommittedRowOutlivesTheFailure` | schema.go:72-89 | a concrete script with a COMMIT that fails and leaves a row behind |
| `Sessions.ScriptIsTheFold` | schema.go:83-94 | a script of plain statements that does not fail leaves the left fold of all of them |
| `History.HistoryIsSerial` | database.go:65-68 | while every event is contained, the engine is where the committed units lead one after the other, in a transaction exactly when the adapter is |
| `History.HistoryIsSerialIffContained` | database.go:65-68 | over every trace, store and transactions are serial at every moment, whatever plain statements do, if and only if every event is contained |
| `History.StoreIsSerialIffLogsAgree` | database.go:65-68 | over every trace, the store is serial, whatever plain statements do, if and only if the plain statements that took effect are those of the committed units, in order |
| `History.TransactionContributes` | driver.go:285-308 | a committed transaction adds one unit to the history, any other nothing |
| `History.TransactionLeaves` | driver.go:137-167 | what a transaction leaves of an idle engine, whatever its statements do to it |
| `History.RolledBackContributesNothingIff` | driver.go:285-308 | a transaction that is rolled back leaves the store as it was, under every engine, if and only if its statements let nothing escape |
| `History.ReleasedOnce` | driver.go:137-167 | every pinned lease is released exactly once, but the one that has the connection |
| `Driver.Database.Connect` | driver.go:49-57 | a new connection without transaction joins those of the database, unless cancelled or closed |
| `Driver.Database.Close` | database.go:174-184 | closes the database and keeps the links and the history |
| `Driver.Database.Open` | driver.go:146-156 | pins the connection and begins, or releases it again when the engine refuses |
| `Driver.Database.RunAlone` | driver.go:181-181 | a statement outside a transaction pins, runs and releases |
| `Driver.SqlConnection.BeginTx` | driver.go:137-167 | succeeds exactly under its conditions, one of them that the engine is in no transaction, with a fresh linked transaction; on failure nothing stays pinned |
| `Driver.SqlConnection.ExecContext` | driver.go:169-189 | a statement runs in the active transaction or on its own, with the row count or error the engine gives, and otherwise not at all, with the error of its reason |
| `Driver.SqlConnection.Close` | driver.go:108-131 | a closed connection holds no transaction; an active one is rolled back and released, with an error exactly if a statement had ended it |
| `Driver.SqlConnection.IsValid` | driver.go:247-251 | true exactly when connection and database are open and every transaction the connection ever began is finished; a transaction that then has the engine is another connection's |
| `Driver.SqlTransaction.Finish` | driver.go:285-308 | the first finish decides and releases, whether or not the engine still has the transaction and accepts the commit; a later one returns ErrTxDone without effect |
| `Driver.DatabaseHistoryIsSerial` | driver.go:108-189 | after any sequence of calls on any connections, while every event was contained, the store is the serial application of what was committed |
| `Driver.LeasesAreReleased` | driver.go:108-167 | at most one transaction is unfinished, its owner holds it, and every other lease was released exactly once |
| `Script.Schema.TranslateStatements` | schema.go:243-277 | the translations of the non-blank parts at increasing positions, none left out, and a result exactly when there is one and all translate; or the one translation of an uncut script |
| `Script.StatementsKeepTheirOrder` | schema.go:263-271 | the statements of a script are its non-blank parts, from first to last |
| `Script.Schema.ExecContext` | schema.go:52-95 | a handled or failed interception decides alone; otherwise nothing runs unless every statement translates, and then the script does what the next row says |
| `Script.Schema.ExecTranslated` | schema.go:60-94 | a single statement runs as it is; several, if they have no arguments and a transaction can be opened, leave what their script leaves, with the last statement's result or an error, and add one unit to the history or none |
| `Script.Schema.RunInTransaction` | schema.go:72-94 | opens, runs and ends the transaction of a script; the outcome is that of the script, and an error exactly if the script fails |
| `Script.Schema.RunAll` | schema.go:83-89 | statements run in order up to the first that fails, and the engine and the result are those of the script so far |
| `Intercept.InterceptorRegistry.InterceptQueries` | intercept.go:54-70 | a new registration has a new largest id and goes behind the others |
| `Intercept.InterceptorRegistry.Remove` | intercept.go:72-84 | exactly the registration of that id goes, the others keep their order |
| `Intercept.InterceptorRegistry.Shift` | intercept.go:79-81 | the in-place copy and truncation cut out one position |
| `Intercept.Subscription.Unsubscribe` | intercept.go:27-36 | the first call ends the registration, any other does nothing |
| `Intercept.InterceptorRegistry.RunInterceptors` | intercept.go:87-119 | the first registration at the start that does not pass decides: its error, or its result with row count and command filled in; whatever callbacks register or unsubscribe meanwhile, which the log records |
| `Intercept.LiveFollowsLog` | intercept.go:54-84 | the live registrations are the log's, in order, without the ended ones |
| `Intercept.WithoutAt` | intercept.go:75-83 | with increasing ids, taking an id away is cutting one position |
| `Intercept.FirstAnswerDecides` | intercept.go:99-118 | the first interceptor that does not pass decides |
| `TableQuery.FindContext` | table.go:111-133 | the loop builds the specified text and arguments |
| `TableQuery.FindMeansTemplate` | table.go:104-133 | read back as SQL, the statement selects exactly the rows that match the template, nil meaning NULL |
| `TableQuery.StatementsReachTheirSchema` | table.go:135-144 | the schema that a Find or Insert statement names is, for the engine, the table's own |
| `TableQuery.StatementsSpelled` | table.go:86-131 | what the statements look like, keyword by keyword |
| `TableQuery.FindReadsBack` | table.go:111-133 | the text reads back as the predicates and the relation it was made of, whatever the names contain |
| `TableQuery.PlaceholdersBindTheirColumns` | table.go:119-130 | each placeholder binds its own column's value |
| `TableQuery.InsertContext` | table.go:80-102 | the loop builds the specified text and arguments |
| `TableQuery.InsertMeansRow` | table.go:80-102 | read back as SQL, the statement supplies exactly the row's columns, each with its own value |
| `TableQuery.QualifiedNameReadsBack` | table.go:135-144 | a two-part name reads back as the internal schema name and the table name |
| `Quoting.ReadInvertsQuoted` | database.go:201-203 | a quoted identifier or literal reads back as the original string (sections 5.2 and 5.3 of ISO/IEC 9075-2) |
| `Quoting.NamesAndLiteralsReadBack` | backup.go:371-373 | the same for the two quoting helpers as they are called |
| `Quoting.QuotedSpelled` | database.go:201-203 | a name is put between quotation marks and a mark within it doubled |
| `Quoting.ReadInvertsDecimal` | table.go:125-127 | a placeholder number reads back |
| `Quoting.DecimalSpelled` | table.go:93-93 | digits stand in the usual order |

## Assumptions

* The parser, the printer and SQLite are external. Trees stand for texts between the two rewrites; the
  prefilter theorem assumes a text that spells every part of a function name up to letter case.
* `IsGrammatical`, `NamesAreLeaves` and `HasStringNames` state what the PostgreSQL grammar guarantees of a tree: singular
  fields hold at most one message, parts of names are plain nodes, a table element contains no CREATE TABLE.
* Dispatch ids are distinct (function.go:119-125 draws 256 random bits).
* In the commit section of a restore (backup.go:189-205) the engine does not fail.
* A commit that is a statement is not refused; refusing needs deferred constraints, which
  COMPATIBILITY.md:27 does not promise. Whether a commit by the adapter that is refused discards the
  transaction is a parameter of the engine.
* A plain statement does not end a transaction. Controlling statements, savepoints included, behave as in
  SQLite: a BEGIN inside a transaction, a COMMIT or ROLLBACK outside, and the name of an unknown savepoint
  fail without effect.
* Callbacks answer as a function of their arguments and what they unsubscribe.
* Go strings are sequences of code points. Of the non-ASCII code points only those whose case mapping meets
  ASCII are mapped; order by code point is the byte order of UTF-8.

## Left out

- Column references with a schema prefix, CTE names, DROP name lists, indexes, temporary tables and ALTER TABLE foreign keys: the rewrite does not treat them, so resolution is stated for relation references in trees without CTEs; result column labels of unaliased rewritten calls are not modelled.
- Temporary files, URIs, serialization of images: an image is a value.
- `QueryContext` of schema.go: it runs its statements and handles its transaction as `ExecContext` does; materialized rows are not modelled. `QueryContext` of driver.go:191-211 differs: outside a transaction its open rows keep the engine connection pinned between two calls, which the model of the adapter does not have.
- Several statements in one text given to the adapter, and the row count reported for a controlling statement, which is 0 here.
- Backup and Restore on a connection that a statement has left inside a transaction.
- Driver.SqlConnection.BeginTx: does not model waiting, because a call that finds the connection pinned is seen when its context ends; the waiting itself is in `Locks`. Rollback by database/sql when a transaction's context is cancelled is left out too.
- Locks.StepKeepsInv: the readers of the function registry, who never wait while they read, take no step of their own; the release of several locks at the end of a call is one step, as is one schema's detach and attach under the connection; each actor makes one call, and the scheduler is not fair.
- `sqlState`, `statementCommand`, error texts, `sqlRows`, `sqlStatement`, the connector and driver wrappers, options, `Must` variants: classification tables and thin delegation.
- `cloneDriverValue`, `cloneArguments`, `cloneResult`: values are immutable here, so defensive copies and aliasing are not modelled.
- Overflow of 64-bit counters and collisions of random ids.
