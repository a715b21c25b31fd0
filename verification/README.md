# Reach: what its database workspace and codecs promise, proved

Reach is a desktop client for servers and databases. This project models the
parts of it whose correctness rests on reasoning rather than on a server's
answers, and proves what they promise. `dafny verify dfyconfig.toml` checks
everything.

## What is modelled

**The table designer** (`design.rs`). A design is a value (`Design`): columns, key,
indexes, foreign keys, checks and triggers, each with the name it had when loaded.
`AlterTable` turns a pair of designs into a list of DDL steps for PostgreSQL, MySQL,
MariaDB and SQL Server; `DesignBuild` and `DesignBuildSqlite` hold the same as the
loops the program runs. `DesignExec` is the other side: an abstract table with its
rows, and what each step does to it or why it is refused. Where a condition is
called exact it is exact of these rules; what an engine may refuse besides is listed
under "Left out". References of a table to itself (`DesignReferences`) follow it
when it is renamed and keep the keys they need from being dropped. On PostgreSQL a
plan runs through exactly when the edit is feasible, a condition on the two designs
(`DesignReach.Feasible`), and then it reaches the new design with no value lost
(`DesignReach.PlanReaches`), but for references to itself that a renamed table takes
along (`DesignReach.ReachesNext`); on MySQL and MariaDB a plan that runs through
leaves that design too, storage options included (`DesignMysql.PlanGives`), with an
index more for every added foreign key that finds none
(`DesignMysql.GrownIsDesigned`), its columns placed where the plan says
(`DesignPlacement.PlacementHolds`), and in the designed order exactly when those
that stay behind their old neighbour keep theirs (`DesignOrder.OrderLeft`); on SQL
Server, where defaults are constraints with names, it leaves it but for one lost
edit (`DesignMssql.PersistedDecides`). `DesignExample` and `DesignElsewhere` meet
the assumptions of these results, with edits whose plans are not empty;
`DesignRefused` holds edits that fail. Every step of a plan is one the engine has a
statement for (`DesignDialect`). Two designs of one table have *fresh names* when
originals exist and are distinct and a column that bears a loaded column's name is
that column (`DesignValid.Fresh`); renames that swap names are outside it.

**SQLite** alters in place or rebuilds (`DesignSqlite`). Statements run on a
database of several tables with foreign keys between them, which follow a table or a
column that is renamed; names are compared without case (`DesignFolds`). Whichever
way a plan goes, once it has run through the table is as designed
(`DesignChoice.SqliteLeaves`), and which way it goes is told from the two designs
(`DesignChoice.InPlaceWhen`). When the statements in place run through, so does the
rebuild, and the two give the same table, and the same database exactly when no
foreign key refers to a table or a column that is renamed
(`DesignRefine.ShortcutRefines`). A rebuild is atomic under any failure up to and
including its COMMIT (`DesignRebuildRun.RebuildIsAtomic`, `DesignApply.Apply`).

**Transactions** (`conn.rs`, `db_commands.rs`). A session runs statements, any of
which may be refused by the database or lost to a fault. Statements are arbitrary
partial functions on an arbitrary state, so what is proved holds for row edits
and for DDL alike. What an answer means is also said of the statements themselves:
what each of them, run after those before it, would report
(`Sessions.Session.ApplyEdits`, `Transactions.SurviveMeans`).

**SQL text** (`guard.rs`, `dialect.rs`, `backup.rs`). The lexer, splitter and
classifier, once as functions (`Guard`) and once as the stepping class and loops
of the program (`GuardLexer`). What they should find is said over the tokens alone:
where a statement ends and which bodies stay whole (`GuardBodies`), what a
statement is taken for (`GuardRisk`), what a comment, a dollar quote, a GO or a
DELIMITER line is (`GuardTokens`). The writers print names, values, row edits and
dumps. A printed statement is a list of pieces (`SqlText`) whose text lexes back
to itself, which gives one result about row edits and one about whole scripts. A
small reader of SQL (`SqlReader`) reads row edits back (`RowEditReading`) and closes
the dump and restore round trip, where the restoring side is a table with its
columns that refuses an INSERT which names a computed column or leaves out another
(`DumpRoundTrip`); it finds its tokens with the lexer of `Guard`, and shares with
the writers only the engine's quote characters.

**Codecs and clocks.** The chunked UTF-8 decoder (`TextStream`, `TextWild`), CSV
(`Csv`), Redis console lines (`RedisArgs`), POSIX quoting and Compose command
lines (`Shell`, `Compose`), the drag-out stream (`DragStream`), and the clock text
that project lists are sorted by (`Calendar`, `Projects`).

## Where the program keeps less than it seems to promise

- A SQLite plan drops columns before indexes, so an in-place drop of an indexed
  column is refused by the engine (`DesignRefused.IndexedColumnStays`), although
  the comment at design.rs:517-518 speaks of the opposite order. `InPlaceOk` is the
  exact condition (`DesignRefine.InPlaceRuns`). An added NOT NULL column without a
  default is refused in place as well.
- In place, SQLite refuses to change only the case of a table's name, or to give it
  the name of one of its indexes, where the rebuild goes through
  (`DesignRefine.RenameDecides`, `DesignRefused.CaseIsNotChanged`).
- A trigger whose text was emptied is sent as an empty statement in place, and left
  out by the rebuild (`DesignDialect.TriggersSent`).
- Renaming a SQLite table or column in place carries along the foreign keys that
  refer to it; the rebuild leaves them at the old name
  (`DesignRefine.ReferencesDecide`, `DesignExample.SqliteRuns`).
- A rebuild that copies no column loses the rows (`DesignKept.RebuildKeepsRows`,
  `DesignRefused.RowsAreLost`).
- On PostgreSQL a table renamed to the name of one of its own indexes, or of its
  key, is refused, although the plan may drop that index
  (`DesignRefused.IndexNameIsTaken`).
- On PostgreSQL a plan drops a key that a kept foreign key of the table to itself
  refers to without dropping that foreign key, and so is refused
  (`DesignRefused.ReferencedKeyStays`). A renamed table takes such a foreign key
  along whatever the new design says (`DesignRefused.ReferenceFollows`).
- On MySQL and MariaDB adding a foreign key over columns no index begins with leaves
  an index the design does not have (`DesignMysql.GrownIsDesigned`).
- A MySQL column order such as `[a, b, c, d]` turned into `[c, d, a, b]` is not
  reached: the plan moves two columns and leaves `d` behind `b`
  (`DesignOrder.OrderLeft`, `DesignOrder.HalvesSwapped`).
- A storage option of MySQL cannot be given up, only replaced
  (`DesignMysql.OptionsDesigned`).
- "The table was left as it was" (db_commands.rs:905) is not so when only the
  final PRAGMA fails: the change is then in place (`Transactions.WrappedIsAtomic`).
- On PostgreSQL, making an identity column nullable, giving it a type that is no
  whole number, or changing its default while it is an identity column, or the
  type or default of a generated column, yields a plan the engine refuses half way
  (`DesignColumns.SafeEdit`, `DesignRefused.IdentityIsNotNullable`); the plan runs
  in one transaction, so nothing of it remains.
- On SQL Server, making a computed column persisted, or ceasing to, is an empty
  plan: `same_definition` sees the change, `alter_column` does not act on it
  (`DesignMssql.PersistingIsLost`).
- "Nothing was saved" (db_commands.rs:854) holds for what others see, but a lost
  ROLLBACK or COMMIT leaves the transaction open (`Transactions.AllOrNothing`).
- In a MySQL body, END CASE counts as one more CASE to close, and the END of a nested
  block ahead of IF, LOOP, WHILE or REPEAT is taken for that of a loop: the body is
  never closed and what follows is not split off (`GuardBodies.EndCaseOpens`,
  `GuardBodies.EndBeforeIf`). A dumped routine then keeps its delimiter
  (`GuardTokens.RoutineSplits`).
- Text that begins with `0x` in a binary column is dumped as if it were bytes
  (`DumpRoundTrip.LookalikeIsBytes`).
- The decoder's result depends on how invalid input is cut, exactly when something
  longer than one byte follows the first invalid part (`TextWild`).
- CSV rows that are empty or one lone empty field, or whose first field begins
  with a byte order mark that is printed bare, do not come back (`Csv.RoundTrip`).
- A failed drag read does not count the bytes it had already handed over: the
  position a later Seek reports is too small exactly when a read began before the
  last byte that arrives and asked for more (`DragStream.PositionIsExact`).
- Sorting clock texts as strings is right up to the year 9999 and no further
  (`Calendar.SortsUntil`).

## Model

| member | source | states |
|---|---|---|
| DesignAccepts.ValidMeans | src-tauri/src/db/design.rs:452-477 | A design is accepted exactly when it and its columns are named, every column has a type or is generated, no two names differ in case alone, and the key names columns |
| DesignAccepts.FaultsMean | src-tauri/src/db/design.rs:452-477 | A refused design is told the first thing wrong with it: table, then columns in order, then key |
| DesignAccepts.PostgresPlans | src-tauri/src/db/design.rs:483-545 | PostgreSQL gets a plan exactly when the new design is valid, a key to be dropped has a name, and no kept column changes how it is generated |
| DesignAccepts.MysqlPlans | src-tauri/src/db/design.rs:483-545 | MySQL and MariaDB get a plan for every valid design |
| DesignAccepts.MssqlPlans | src-tauri/src/db/design.rs:779-818 | SQL Server gets one exactly when besides a key to be dropped has a name and no kept column becomes or ceases to be an identity or changes its expression |
| DesignBuild.Check | src-tauri/src/db/design.rs:452-477 | The validation loops, with the set of names seen, decide what validation means |
| DesignBuild.AlterColumnLoop | src-tauri/src/db/design.rs:558-571 | The loop works through the new columns by position and stops at the first that cannot be altered in place |
| DesignBuild.Alter | src-tauri/src/db/design.rs:483-633 | The statement list grown in one pass is the plan: rename, drops, key, columns, adds, comment, or the first error |
| DesignBuildSqlite.AddOrRenameLoop | src-tauri/src/db/design.rs:859-867 | The loop adds new columns and renames kept ones, in order |
| DesignBuildSqlite.CopiedLoop | src-tauri/src/db/design.rs:887-896 | The filter pairs every copied column with the one it was |
| DesignBuildSqlite.AlterLite | src-tauri/src/db/design.rs:826-914 | SQLite's plan grown statement by statement: the shortcut when it applies, otherwise the rebuild |
| DesignDialect.PlanIsSaid | src-tauri/src/db/design.rs:483-633 | Every step of a plan is one its engine has a statement for: checks and foreign keys are dropped as that engine drops them, columns altered as it alters them, and only MySQL and MariaDB place a column |
| DesignDialect.SqliteIsSaid | src-tauri/src/db/design.rs:848-910 | So is every step SQLite takes on a table |
| DesignDialect.TriggersSent | src-tauri/src/db/design.rs:877-909 | In place every trigger added is sent, blank or not; a rebuild sends just those that are not blank |
| DesignDialect.TypeReadsBack | src-tauri/src/db/design.rs:140-148 | Reading a type as it is written gives its name, length and scale |
| DesignDialect.ForeignKeySame | src-tauri/src/db/design.rs:678-687 | Two foreign keys are the same exactly when they agree, NO ACTION being the same as no action and case left aside in actions |
| DesignParts.PartsReplaced | src-tauri/src/db/design.rs:519-537 | Dropping the parts that changed and adding the new ones leaves exactly the new parts, names and bodies |
| DesignParts.SurvivorsAreNew | src-tauri/src/db/design.rs:635-642 | Whatever counts as kept has its name and body in the new design |
| DesignParts.AddedAreFree | src-tauri/src/db/design.rs:576-599 | Nothing that is added has a name still in use after the drops |
| DesignValid.SurvivorsStable | src-tauri/src/db/design.rs:517-545 | After the drops, keys, indexes and foreign keys refer only to columns that keep their name |
| DesignColumns.AlterRuns | src-tauri/src/db/design.rs:747-778 | One PostgreSQL column: its steps give it the new name and definition with its old values, or are refused, exactly as the edit is safe or not |
| DesignColumns.RunColumn | src-tauri/src/db/design.rs:747-778 | Steps that alter one column change that column's definition and nothing else |
| DesignMoves.NameIsFree | src-tauri/src/db/design.rs:558-571 | With fresh names, a name about to be given is never taken when its column's turn comes |
| DesignMoves.MoveOn | src-tauri/src/db/design.rs:558-571 | Each turn leaves the columns before and after it untouched |
| DesignMoves.MovingEnds | src-tauri/src/db/design.rs:558-571 | After the last turn the columns are exactly those designed |
| DesignPostgres.StepKept | src-tauri/src/db/design.rs:747-778 | A kept column's steps run exactly when the edit is safe, and then it is as designed |
| DesignPostgres.StepAdded | src-tauri/src/db/design.rs:561-568 | An added column's name is free and it gets its default in every row |
| DesignPostgres.ColumnsRun | src-tauri/src/db/design.rs:558-571 | All column steps run exactly when every edit is safe, and then all columns are as designed |
| DesignPhases.DropPartsRun | src-tauri/src/db/design.rs:519-537 | Every drop of a foreign key, index, check or trigger finds what it names, and they run through exactly when no index goes that a kept reference of the table to itself needs |
| DesignAdds.AddPartsRun | src-tauri/src/db/design.rs:573-599 | PostgreSQL and SQL Server: every add finds its columns there; they run through exactly when every part added can be made, is called like nothing else of the table, and has the key it refers to within the table, and then the table has exactly the reached design's parts |
| DesignReach.DropColumnsRun | src-tauri/src/db/design.rs:548-557 | No dropped column is still used by a key, index or foreign key |
| DesignReach.PlanReaches | src-tauri/src/db/design.rs:483-633 | PostgreSQL, fresh names: a plan runs through exactly when the new name is free of the table's own indexes and key and of tables its foreign keys know, no key goes that a kept reference of the table to itself needs, every kept column's edit is safe and every part added can be made; the table is then the reached design, kept values in place, defaults in new columns |
| DesignReach.ReachesNext | src-tauri/src/db/design.rs:486-515 | The reached design is the new one exactly when the table keeps its name or no reference of it to itself is kept |
| DesignReferences.TableTakenMeans | src-tauri/src/db/design.rs:486-515 | A rename of the table is refused exactly when its new name is that of its index, its key, or a table a foreign key knows, told from the two designs |
| DesignRefused.IndexNameIsTaken | src-tauri/src/db/design.rs:486-515 | A table renamed to the name of its own index: the plan is refused |
| DesignReferences.DropsKeepServed | src-tauri/src/db/design.rs:519-545 | No run of drops takes the key from under a reference of the table to itself |
| DesignReferences.KeysReached | src-tauri/src/db/design.rs:519-525 | Kept foreign keys, following the table, and added ones are exactly those of the reached design |
| DesignReferences.NeededMeans | src-tauri/src/db/design.rs:538-545 | A key is needed by the table's own references in the running plan exactly when it is, told from the two designs |
| DesignRefused.ReferencedKeyStays | src-tauri/src/db/design.rs:538-545 | A key made wider under a kept reference of the table to itself: the plan is refused |
| DesignRefused.ReferenceFollows | src-tauri/src/db/design.rs:492-515 | A renamed table whose reference to itself is kept: what is left is not the design |
| DesignRefused.IdentityIsNotNullable | src-tauri/src/db/design.rs:760-773 | Identity and NOT NULL given up at once: the plan is refused |
| DesignKept.PlanKeepsRows | src-tauri/src/db/design.rs:548-571 | PostgreSQL, MySQL, MariaDB, SQL Server: if the plan runs through, every row is there, each kept column holds what it held, each new one its default, and there is nothing else |
| DesignKept.InPlaceKeepsRows | src-tauri/src/db/design.rs:848-881 | The same for SQLite in place, whatever the columns |
| DesignKept.RebuildKeepsRows | src-tauri/src/db/design.rs:887-907 | SQLite's rebuild keeps the rows exactly when it copies a column (or there were none), and every copied column its values |
| DesignRefused.RowsAreLost | src-tauri/src/db/design.rs:887-907 | The only column replaced by another: the rebuild leaves no row |
| DesignKept.AlterRows | src-tauri/src/db/design.rs:729-818 | On every engine a kept column's steps move its values to its new name and touch no other values |
| DesignPlacement.PlacementHolds | src-tauri/src/db/design.rs:690-715 | MySQL, fresh names: when the whole plan has run, every column given FIRST stands first and every column given AFTER directly behind its designed predecessor |
| DesignPlacement.PlacedInsert | src-tauri/src/db/design.rs:558-571 | Placing a column never separates two earlier ones |
| DesignPlacement.PlacedReplaced | src-tauri/src/db/design.rs:737-746 | Renaming a column never disturbs an adjacency already made |
| DesignOrder.OrderLeft | src-tauri/src/db/design.rs:690-715 | MySQL and MariaDB, fresh names: a plan that has run through leaves every designed column in the order once, and the order is the designed one exactly when the columns that stay behind their old neighbour keep their order among themselves |
| DesignOrder.HalvesSwapped | src-tauri/src/db/design.rs:690-715 | Two halves of four columns that change places do not meet that condition |
| DesignOrder.PositionMeans | src-tauri/src/db/design.rs:690-715 | A kept column is given no position exactly when it stays behind its old neighbour, a new one exactly when it is the last |
| DesignOrder.TurnAhead | src-tauri/src/db/design.rs:558-571 | Two columns without a position stay in their order at every turn |
| DesignMysql.PlanGives | src-tauri/src/db/design.rs:483-633 | MySQL and MariaDB, fresh names: a plan that has run through leaves exactly the reached design, definitions, parts, comment and values, an index for each added foreign key that found none, and storage options as the new design names them, otherwise as loaded |
| DesignMysql.OptionsDesigned | src-tauri/src/db/design.rs:601-627 | The storage options left are those designed exactly when the new design still names what the loaded one did |
| DesignMysql.GrownIsDesigned | src-tauri/src/db/design.rs:588-593 | The table left has exactly the designed indexes when, and only when, every added foreign key finds an index or the key that begins with its columns |
| DesignElsewhere.MysqlRuns | src-tauri/src/db/design.rs:690-715 | Two columns that change places: the plan is two steps, runs through, and puts both where it says |
| DesignMysql.ColumnsGiven | src-tauri/src/db/design.rs:558-571 | MySQL and MariaDB: after the column steps every column has its new definition and its old values |
| DesignMysql.SameColumn | src-tauri/src/db/design.rs:717-745 | A column MySQL is not told about is already as designed |
| DesignMssql.PlanSettles | src-tauri/src/db/design.rs:483-633 | SQL Server, fresh names: a plan that has run through leaves exactly the reached design with its values, each default under its old name or its new one, each kept computed column as persisted as it was |
| DesignElsewhere.MssqlRuns | src-tauri/src/db/design.rs:779-818 | A column renamed and one added with a default: the plan is two steps, runs through, and leaves the settled design |
| DesignMssql.PersistedDecides | src-tauri/src/db/design.rs:779-818 | Up to the names of defaults, what is left is the new design exactly when no kept computed column was to become persisted or cease to be |
| DesignMssql.PersistingIsLost | src-tauri/src/db/design.rs:779-818 | Changing nothing but whether computed columns are persisted is an empty plan, on any loaded design |
| DesignMssql.SettledAgain | src-tauri/src/db/design.rs:548-571 | After a plan every default again has one known name of its own, so plans can follow one another |
| DesignMssql.MssqlColumnsDropped | src-tauri/src/db/design.rs:548-557 | Every dropped column's default goes first and takes no other column's default with it |
| DesignDefaults.AlterSettles | src-tauri/src/db/design.rs:779-818 | One SQL Server column: its steps give it the new name, its settled definition and its old values |
| DesignDefaults.DefaultDropped | src-tauri/src/db/design.rs:801-804 | Dropping a default by its name clears that column's default and no other |
| DesignDefaults.RunKeepsApart | src-tauri/src/db/design.rs:548-571 | No run of column steps ever gives two defaults one name |
| DesignUnchanged.UnchangedIsEmpty | src-tauri/src/db/design.rs:483-633 | A design as loaded altered to itself gives an empty plan, positions included |
| DesignUnchanged.SqliteUnchangedIsEmpty | src-tauri/src/db/design.rs:826-882 | On SQLite it takes the shortcut, and the shortcut is empty |
| DesignUnchanged.NoMove | src-tauri/src/db/design.rs:690-715 | An unmoved column is never given a position |
| DesignInPlace.ColumnDropsRun | src-tauri/src/db/design.rs:854-858 | SQLite's column drops go through exactly when no index is in the way, and leave the kept columns in order |
| DesignInPlace.ColumnsRunInPlace | src-tauri/src/db/design.rs:859-867 | Adding and renaming go through exactly when every added column may be added, and give the new columns in the new order |
| DesignShortcut.ConstraintsSame | src-tauri/src/db/design.rs:841-846 | Equal counts and one match for each old constraint mean the constraints are the same |
| DesignShortcut.InlineSame | src-tauri/src/db/design.rs:398-407 | Where the shortcut applies, the key column is declared inline in both designs or in neither |
| DesignShortcut.InPlaceTable | src-tauri/src/db/design.rs:848-881 | The in-place steps run through exactly when no dropped column is indexed, every added one may be added and the names of indexes and triggers are apart, case aside; then the table is the new design, rows and order included |
| DesignRefine.InPlaceRuns | src-tauri/src/db/design.rs:826-882 | The same on the whole database, with the rename of the table, which needs a name that differs in more than case and is no own index's, and with every foreign key that refers to what is renamed |
| DesignRefused.IndexedColumnStays | src-tauri/src/db/design.rs:854-871 | An indexed column dropped in place: the statements are refused |
| DesignRefine.ShortcutRefines | src-tauri/src/db/design.rs:826-914 | Where the shortcut applies and runs through, so does the rebuild, and both leave the same table; the whole databases are equal exactly when no foreign key refers to a table or a column that is renamed |
| DesignRefine.RenameDecides | src-tauri/src/db/design.rs:848-914 | With columns and names in order the rebuild always runs through, the shortcut exactly when the new name differs in more than case and is no own index's |
| DesignRefused.CaseIsNotChanged | src-tauri/src/db/design.rs:850-853 | A table whose name changes in case only: refused in place, done by the rebuild |
| DesignFolds.OneCaseMeans | src-tauri/src/db/design.rs:868-881 | The new parts' names are apart, case aside, exactly when the added ones are from each other and from those that survive |
| DesignChoice.SqlitePlans | src-tauri/src/db/design.rs:826-914 | SQLite gets a plan exactly when the new design is valid, and otherwise the same error |
| DesignChoice.SqliteLeaves | src-tauri/src/db/design.rs:826-914 | Any sound edit: whichever way the plan goes, once it has run through the table under its new name is as designed, kept values in place, rows there unless no column is copied, and no other table has changed but for keys that refer to what is renamed |
| DesignChoice.InPlaceWhen | src-tauri/src/db/design.rs:829-848 | The plan is in place exactly when no kept column changes its definition, no new one is generated and stored, new columns stand behind the kept ones in their old order, and key, foreign keys and checks are as they were |
| DesignChoice.OrderMeans | src-tauri/src/db/design.rs:836-840 | Comparing the lists of originals is comparing the loaded order |
| DesignRefine.ReferencesDecide | src-tauri/src/db/design.rs:850-867 | Renaming in place carries foreign keys along, replacing the table does not: the two differ exactly when a key refers to the renamed table or to a renamed column |
| DesignRefine.NameStays | src-tauri/src/db/design.rs:859-867 | A reference's column keeps its name through the in-place renames exactly when no column of that name is renamed |
| DesignRebuild.CopyRuns | src-tauri/src/db/design.rs:887-907 | INSERT … SELECT runs exactly when every NOT NULL column gets its values, and then each column holds what it should |
| DesignRebuild.CopiedIntoIs | src-tauri/src/db/design.rs:887-898 | Each new column gets the values of the one column it was, or its default |
| DesignRebuildRun.SwapRuns | src-tauri/src/db/design.rs:906-909 | The new table takes the old one's place and name and gets its indexes and triggers, exactly when their names are apart, case aside |
| DesignRebuildRun.RebuildRuns | src-tauri/src/db/design.rs:884-910 | The rebuild's body runs through exactly when every NOT NULL column can be filled and the new table's names are apart, case aside; then it stands where the old one did |
| DesignRebuildRun.RebuildIsAtomic | src-tauri/src/db/design.rs:884-914 | Whatever fails up to and in COMMIT, everyone sees the database as before; after COMMIT the new table is in place and the temporary one gone |
| DesignRebuildRun.RebuildKeepsParts | src-tauri/src/db/design.rs:908-909 | The rebuilt table has every index and every non-blank trigger of the new design, and no other |
| DesignApply.Apply | src-tauri/src/ipc/db_commands.rs:876-917 | SQLite over a session, under any failure: all of the plan or nothing, except that a rebuild whose last step alone fails is in place |
| DesignApply.ApplySteps | src-tauri/src/ipc/db_commands.rs:876-917 | The other engines: on success every step is made; on an error PostgreSQL and SQL Server show the table as it was, MySQL as the steps before the failed one left it |
| Transactions.AllOrNothing | src-tauri/src/db/conn.rs:383-401 | Under any refusals and lost statements others see all of the list or none of it; a transaction stays open exactly when its COMMIT or ROLLBACK was lost |
| Transactions.QuietTransaction | src-tauri/src/db/conn.rs:383-401 | When nothing is lost, the list fails only for the statements' own sake and no transaction stays open |
| Transactions.SendAllWorks | src-tauri/src/ipc/db_commands.rs:841-857 | Inside a transaction the way back is kept, and sending stops exactly at the first refusal, miss or loss |
| Transactions.SurviveMeans | src-tauri/src/ipc/db_commands.rs:841-857 | Told from the statements alone: those that survive run and match what they must, and without losses the next one is refused or matches nothing |
| Transactions.WrappedIsAtomic | src-tauri/src/ipc/db_commands.rs:899-916 | A plan with its own transaction: succeeded, undone or in place, decided by which statement is lost; after a clean-up that gets through no transaction is open and foreign keys are enforced |
| Transactions.CleanUp | src-tauri/src/ipc/db_commands.rs:902-905 | ROLLBACK and PRAGMA after a failure never change what others see |
| Sessions.Session.Run | src-tauri/src/db/conn.rs:360-364 | One statement: lost, refused or done, and how many rows it touched |
| Sessions.Session.RunInTransaction | src-tauri/src/db/conn.rs:383-401 | The loop is the transaction it is meant to be: success means every statement ran, in order, and a quiet failure that the state is the one before |
| Sessions.Session.ApplyEdits | src-tauri/src/ipc/db_commands.rs:829-859 | Row edits: saved means every statement ran and no UPDATE or DELETE reported that it matched nothing; if nothing is lost and one does, it is the one reported and the state is the one before |
| Sessions.Session.ApplyDesign | src-tauri/src/ipc/db_commands.rs:897-916 | The loop over a plan that manages its own transaction, with SQLite's clean-up |
| Gate.WorstBounds | src-tauri/src/db/guard.rs:138-158 | A SQL Server batch is as risky as its riskiest statement: no less than any, no more than one |
| Gate.BatchMeans | src-tauri/src/db/guard.rs:138-158 | A batch is dangerous exactly when a statement in it is, otherwise a write when one is, otherwise about the session when one is |
| Gate.HeldMeans | src-tauri/src/ipc/db_commands.rs:644-661 | Held back are just the dangerous statements and, in production, those that write, in their order |
| Gate.Check | src-tauri/src/ipc/db_commands.rs:644-661 | A read-only connection refuses the first statement that is neither a read nor about the session; unless confirmed nothing dangerous runs, and nothing that writes in production |
| Gate.EditAtTheGate | src-tauri/src/ipc/db_commands.rs:644-661 | A row edit sent as a script is one write: held in production, refused read-only, run otherwise |
| Guard.LexOrdered | src-tauri/src/db/guard.rs:327-430 | Tokens come in order, inside the text and disjoint |
| Guard.VerbComesLater | src-tauri/src/db/guard.rs:244-258 | What EXPLAIN classifies next is shorter than what it was given, so classifying ends |
| GuardLexer.Lexer.Next | src-tauri/src/db/guard.rs:327-430 | The stepping lexer gives the next token of the text and leaves the rest |
| GuardLexer.Lexer.SkipQuoted | src-tauri/src/db/guard.rs:290-309 | Skipping a quoted part ends where the quote does |
| GuardLexer.Lexer.SkipDollar | src-tauri/src/db/guard.rs:312-324 | A dollar quote is skipped to its closing tag, or to the end |
| GuardLexer.Tokens | src-tauri/src/db/guard.rs:67-67 | Collecting the tokens one by one gives the whole text's tokens |
| GuardLexer.SplitLoop | src-tauri/src/db/guard.rs:66-136 | The splitting loop over start, first word, compound and depth finds the statements the specification says |
| GuardLocality.NextPrefix | src-tauri/src/db/guard.rs:327-430 | What follows a token does not change it |
| GuardLocality.LexCut | src-tauri/src/db/guard.rs:327-430 | A text cut between tokens lexes as its two parts |
| GuardLocality.TrimKinds | src-tauri/src/db/guard.rs:76-83 | Trimming removes only tokens that mean nothing |
| GuardLocality.NeverCutsAlone | src-tauri/src/db/guard.rs:85-134 | A stretch that is not cut in its script is not cut on its own |
| GuardStability.SplitIsStable | src-tauri/src/db/guard.rs:55-136 | PostgreSQL and SQLite: re-splitting any returned statement returns just that statement |
| GuardStability.WordsAreCovered | src-tauri/src/db/guard.rs:66-136 | Every word of the script lies in exactly one statement |
| GuardStability.SpansAreSpaced | src-tauri/src/db/guard.rs:66-136 | On every engine the spans increase, are disjoint, trimmed and inside the script |
| GuardStability.StatementsSay | src-tauri/src/db/guard.rs:76-83 | No statement is returned that has no word in it |
| GuardBodies.StatementEnds | src-tauri/src/db/guard.rs:66-136 | On every engine the splitter yields what stands before the first token that ends the statement, told from the tokens, and goes on behind it |
| GuardBodies.SplitCut | src-tauri/src/db/guard.rs:55-136 | PostgreSQL and SQLite: a script is its first statement and the split of what follows the token that ends it |
| GuardBodies.SplitUncutText | src-tauri/src/db/guard.rs:55-136 | A script no token of which ends a statement is one statement, if there is a word in it |
| GuardBodies.BodyEnds | src-tauri/src/db/guard.rs:85-113 | A CREATE of a trigger, procedure, function or event with a balanced body has no end before its last END, and the terminator behind it is one |
| GuardBodies.BodyIsKept | src-tauri/src/db/guard.rs:66-136 | MySQL, MariaDB, SQLite: a script that ends with such a body is one statement; a terminator behind it splits off what follows |
| GuardBodies.EndCaseOpens | src-tauri/src/db/guard.rs:97-112 | MySQL: behind a body with END CASE no terminator ends the statement |
| GuardBodies.EndBeforeIf | src-tauri/src/db/guard.rs:97-112 | Nor behind one where the END of a nested block stands ahead of IF |
| GuardTokens.LineComment | src-tauri/src/db/guard.rs:352-357 | A comment to the end of the line yields no token, whatever it holds |
| GuardTokens.BlockComment | src-tauri/src/db/guard.rs:358-364 | A block comment ends at the first closing mark and yields no token |
| GuardTokens.OpenComment | src-tauri/src/db/guard.rs:358-364 | One that is never closed takes the rest of the text |
| GuardTokens.QuotedPart | src-tauri/src/db/guard.rs:290-309 | A quoted part is one token on its engine, whatever it holds: quotes stand in it twice, or escaped in a string of MySQL |
| GuardTokens.NeverClosed | src-tauri/src/db/guard.rs:290-309 | A quoted part that is never closed takes the rest of the text |
| GuardTokens.DollarQuoted | src-tauri/src/db/guard.rs:312-324 | PostgreSQL: dollar-quoted text is one token up to its own tag, whatever it holds |
| GuardTokens.GoLine | src-tauri/src/db/guard.rs:415-423 | SQL Server: a line of GO and perhaps a count is one token |
| GuardTokens.DelimiterLine | src-tauri/src/db/guard.rs:406-414 | MySQL: behind DELIMITER and a text that text ends statements |
| GuardTokens.RoutineSplits | src-tauri/src/db/backup.rs:237-245 | MySQL: a routine as a dump writes it, between two DELIMITER lines, splits back to just its text, whatever terminators it holds; with the delimiter left on it exactly when its body seems unfinished |
| GuardRisk.RiskMeans | src-tauri/src/db/guard.rs:182-223 | Which statements are reads, told from the words outside parentheses |
| GuardRisk.SessionMeans | src-tauri/src/db/guard.rs:222-223 | Which are about the session |
| GuardRisk.DangerMeans | src-tauri/src/db/guard.rs:224-241 | Dangerous are exactly DROP, TRUNCATE, DELETE and UPDATE without a WHERE outside parentheses, and ALTER with a DROP; what is neither that nor a read nor about the session is a write |
| GuardRisk.ReasonMeans | src-tauri/src/db/guard.rs:224-241 | What the user is told about each of them |
| GuardRisk.ExplainAnalyze | src-tauri/src/db/guard.rs:244-258 | EXPLAIN ANALYZE of a statement is as risky as the statement |
| SqlPrinting.NameOk | src-tauri/src/db/dialect.rs:13-20 | A quoted name lexes as one token whatever it holds |
| SqlPrinting.StringOk | src-tauri/src/db/dialect.rs:30-41 | A quoted value lexes as one token whatever it holds |
| SqlText.LexRender | src-tauri/src/db/guard.rs:327-430 | Printed SQL lexes back to the tokens it was printed from |
| RowEditText.EditIsOneWrite | src-tauri/src/db/dialect.rs:74-104 | The statement of a row edit splits to exactly itself and classifies as a write, on every engine, whatever its names and values hold |
| RowEditText.RowEditsAreWrites | src-tauri/src/db/dialect.rs:74-120 | The same for a list of edits; the list is refused exactly when an edit has no key or changes nothing |
| RowEditReading.EditReadsBack | src-tauri/src/db/dialect.rs:74-104 | Reading the statement of an edit gives the table and the very edit: which cells are set to which values, and which row its key picks, NULLs included |
| SqlScript.SplitScript | src-tauri/src/db/guard.rs:55-136 | A script of printed statements, each with its terminator, splits back into exactly those statements, on every engine |
| Backup.WriteChunks | src-tauri/src/db/backup.rs:277-296 | The chunk loop writes one INSERT for every 100 rows of a page, in order |
| Backup.DumpRows | src-tauri/src/db/backup.rs:247-307 | The paging loop writes the dump of all rows and counts each once |
| Backup.DumpedMeans | src-tauri/src/db/backup.rs:256-256 | The columns dumped are just those that are not computed, each once and in order |
| Backup.Restore | src-tauri/src/db/backup.rs:322-357 | The restore loop runs every statement in order, stops or goes on at a failure, and counts |
| Backup.RestoreMeans | src-tauri/src/db/backup.rs:322-357 | A restore ends where it is stopped or, unless it is to go on, at the first failure; what ran before stays; at the end it counts every statement that ran and names every one that failed |
| DumpRoundTrip.PagesJoin | src-tauri/src/db/backup.rs:270-302 | Pages and chunks joined are the rows, each once and in order, and no chunk is empty |
| DumpRoundTrip.PagesFull | src-tauri/src/db/backup.rs:270-302 | Every INSERT but the last takes a hundred rows |
| DumpRoundTrip.ChunkReadsBack | src-tauri/src/db/backup.rs:77-85 | An independent reader of SQL finds in each INSERT its table, columns and exactly its rows, bytes as bytes |
| DumpRoundTrip.DumpThenRestore | src-tauri/src/db/backup.rs:247-357 | Into a table that takes values for just the columns it does not compute, a dump restores every row once, in order, with no failure; the rows are those dumped exactly when no text in a binary column looks like bytes |
| DumpRoundTrip.LookalikeIsBytes | src-tauri/src/db/backup.rs:65-85 | The text `0xdead` in a binary column comes back as two bytes |
| DumpRoundTrip.CopyRows | src-tauri/src/db/backup.rs:247-357 | The two loops one after the other copy a table's rows |
| SqlReader.StringValueBack | src-tauri/src/db/dialect.rs:30-41 | Reading a string literal undoes writing it |
| SqlReader.NameReadsBack | src-tauri/src/db/dialect.rs:13-20 | Reading a quoted name undoes quoting it |
| Utf8.FirstOfEncoded | src-tauri/src/text.rs:29-51 | An encoded character is read back whatever follows it |
| Utf8.EncodedFirst | src-tauri/src/text.rs:29-51 | What is read as a character is that character encoded |
| Utf8.InvalidIsMaximal | src-tauri/src/text.rs:42-48 | One replacement character stands for the longest run of bytes that begins some character, or for one byte when none does |
| Utf8.RoundTrip | src-tauri/src/text.rs:29-51 | Encoding yields valid bytes, which decode to the text |
| Utf8.ValidIsEncoded | src-tauri/src/text.rs:29-51 | Only encodings are valid |
| TextStream.Utf8Stream.Push | src-tauri/src/text.rs:29-51 | A push decodes all but an unfinished last character, which it holds: at most three bytes, and nothing is lost |
| TextStream.Utf8Stream.Flush | src-tauri/src/text.rs:55-62 | A flush decodes what is held, or says there is nothing |
| TextStream.Decode | src-tauri/src/text.rs:29-62 | Feeding every chunk and flushing gives the run's output |
| TextStream.BytesConserved | src-tauri/src/text.rs:29-51 | On any input the bytes decoded and the bytes held are, in order, exactly the bytes fed |
| TextStream.HeldAfterAnyRun | src-tauri/src/text.rs:11-19 | After any run what is held is a proper prefix of one character |
| TextStream.ValidBytesChunked | src-tauri/src/text.rs:1-19 | Valid UTF-8, however cut, decodes to its text and leaves nothing to flush |
| TextStream.ChunkingDoesNotMatter | src-tauri/src/text.rs:29-62 | The same for invalid input in which only single bytes follow the first invalid part |
| TextWild.WildBytesChunked | src-tauri/src/text.rs:42-48 | Any other invalid input can be cut so that the text gets longer |
| TextWild.ChunkingMattersExactly | src-tauri/src/text.rs:29-62 | So chunking never matters exactly for those inputs |
| Csv.Parse | src-tauri/src/db/csv.rs:6-66 | The character loop computes the parse |
| Csv.PrintedParses | src-tauri/src/db/csv.rs:6-84 | Whatever rows are printed, parsing gives them back, empty lines left out |
| Csv.RoundTrip | src-tauri/src/db/csv.rs:6-84 | Printing and parsing gives the rows back exactly when none is empty or one lone empty field and the first field does not begin with a byte order mark that is printed bare |
| Csv.BomIsLost | src-tauri/src/db/csv.rs:7-7 | A printed text that begins with a byte order mark never parses to its rows |
| Csv.ParsedIsSolid | src-tauri/src/db/csv.rs:44-64 | Parsing never yields an empty row or a lone empty field |
| Csv.ReprintIsStable | src-tauri/src/db/csv.rs:6-84 | Re-printing what parsed and parsing again changes nothing, unless the first field begins with a byte order mark that is printed bare |
| Csv.AnyWriting | src-tauri/src/db/csv.rs:6-66 | Lines that end in CR LF, LF or CR, a last one in nothing, quotes a field does not need or a byte order mark in front: the rows are read all the same |
| Csv.NeverEndingField | src-tauri/src/db/csv.rs:6-66 | A quoted field that never ends is reported with the number of the line the text ends on |
| RedisArgs.SplitArgs | src-tauri/src/db/redis.rs:389-444 | The character loops compute the split, errors included |
| RedisArgs.LineSplits | src-tauri/src/db/redis.rs:389-444 | Any list of arguments, each in parts, each part in double quotes with any of the escapes, in single quotes or bare, with any white space between, is split back to that list |
| RedisArgs.UnclosedDoubles | src-tauri/src/db/redis.rs:389-444 | Double quotes that are never closed are refused, even by a backslash at the end |
| RedisArgs.UnclosedSingles | src-tauri/src/db/redis.rs:389-444 | So are single quotes |
| RedisArgs.BadEscapes | src-tauri/src/db/redis.rs:389-444 | An escape that names no byte is refused and told with what was read of it |
| RedisArgs.QuotedSplits | src-tauri/src/db/redis.rs:389-444 | In particular when each is in double quotes with only backslash and double quote escaped and one space between |
| Shell.QuoteIsWord | src-tauri/src/container/mod.rs:74-81 | A POSIX shell reads a quoted word as that one word, whatever it holds |
| Compose.Build | src-tauri/src/container/compose.rs:91-102 | The line grown flag by flag is the command line |
| Compose.CommandMeans | src-tauri/src/container/compose.rs:75-102 | A POSIX shell reads the command line as exactly the words meant, and exactly when no value holds a NUL |
| DragStream.ChannelStream.Read | src-tauri/src/dragout/windows.rs:86-132 | A read fills the buffer with what the specification hands over, leaves the rest of the buffer alone, and moves the position only when it succeeds |
| DragStream.PullKeeps | src-tauri/src/dragout/windows.rs:86-132 | A read hands over the next bytes and loses none; a short one leaves none |
| DragStream.FaultWhen | src-tauri/src/dragout/windows.rs:104-116 | A read fails exactly when it asks for more than arrived before the transfer failed |
| DragStream.TransferConserved | src-tauri/src/dragout/windows.rs:86-132 | Over any reads of any sizes, what was handed out and what is left are in order the transfer |
| DragStream.ShortMeansAll | src-tauri/src/dragout/windows.rs:119-126 | Until a fault, a short read means every byte was delivered and the transfer did not fail |
| DragStream.PositionIsExact | src-tauri/src/dragout/windows.rs:86-132 | The position is the number of bytes handed over exactly when no read of a transfer that fails began before the last byte that arrives and asked for more |
| DragStream.PositionFallsBehind | src-tauri/src/dragout/windows.rs:104-126 | Two bytes, then a failure: a read of three hands over both and does not move the position |
| Calendar.DateOf | src-tauri/src/ansible/project.rs:232-248 | The year loop and the month loop end with the valid Gregorian date of the day number |
| Calendar.MomentOf | src-tauri/src/ansible/project.rs:226-248 | The fields recombine to the second count |
| Calendar.NowText | src-tauri/src/ansible/project.rs:220-250 | The text is that of the moment with the given second count |
| Calendar.YearStep | src-tauri/src/ansible/project.rs:235-240 | The rule for leap years and the count of leap years agree |
| Calendar.MonthsCounted | src-tauri/src/ansible/project.rs:241-248 | The days before each month, in one formula |
| Calendar.SecondsDecide | src-tauri/src/ansible/project.rs:226-248 | A second count belongs to one moment, and moments are ordered as second counts |
| Calendar.TextIsTime | src-tauri/src/ansible/project.rs:249-249 | Up to the year 9999 string order is time order |
| Calendar.TextReads | src-tauri/src/ansible/project.rs:249-249 | Read back, the digits of the text are the fields of the moment |
| Calendar.FiveDigitsBreakTheOrder | src-tauri/src/ansible/project.rs:249-249 | The last second of the year 9999 sorts behind the first of the year 10000 |
| Calendar.SortsUntil | src-tauri/src/ansible/project.rs:249-249 | For every year: string order is time order for all moments up to that year exactly when the year is at most 9999 |
| Projects.ProjectManager.Touch | src-tauri/src/ansible/project.rs:149-159 | Touching a project renews its time and no other's |
| Projects.ProjectManager.List | src-tauri/src/ansible/project.rs:119-123 | The list holds every project once, newest first |
| Projects.ListedByTime | src-tauri/src/ansible/project.rs:119-123 | Whoever stands further up was opened no earlier |

## Left out

- Drivers, sockets, files, Tauri commands, the vault, COM and Win32 plumbing, HTTP and the front end: input and output appear as parameters, as refusals, or as faults.
- introspect.rs: what a server's catalog says; a loaded design is taken as given.
- report.rs, sound.rs and the rest of the program: no claim here depends on them.
- The text of DDL statements: steps are values, not strings; `CREATE TABLE` as a plan of its own (`create_table`) is modelled only as the shape a rebuild creates.
- Expressions in defaults, checks, generated columns and triggers: opaque text; that dropping, renaming or altering a column, or renaming the table, may break or rewrite one is not modelled, nor are the values a generated column computes.
- Types: opaque but for there being one and those an identity column may have; whether a length, a collation, or the type of the column a foreign key refers to fits is not modelled.
- Texts that go into a statement as they stand (types, defaults, expressions, index methods, referential actions, triggers) are taken to be well-formed, and names to be none an engine reserves or cuts short; on SQLite a new column's default is taken to be a constant other than NULL.
- Other tables a foreign key refers to are taken to exist, with the keys it needs; on SQLite they need not.
- Two keys of a table over the same columns: PostgreSQL and SQL Server tie a reference of the table to itself to one of them, which a loaded design does not show; here neither can be dropped. A reference without a schema is taken to stay in the table's own.
- Data-dependent refusals: casts between types are the identity, and checks, unique indexes and foreign keys are not evaluated against rows; NOT NULL is, where SQLite copies rows.
- Values SQLite assigns to an auto-increment column itself, and constraint names PostgreSQL makes up when none is given.
- Names of other tables on PostgreSQL, MySQL and SQL Server, beyond those the table's own foreign keys mention, and of their indexes and triggers, the constraint and sequence names an engine makes up, permissions, locks, views and anything else that depends on a column from outside its table, except foreign keys in SQLite.
- MySQL's storage options: that an AUTO_INCREMENT below the values in use is raised, and which collation goes with a character set named alone, are left to the engine.
- Blank triggers in a SQLite in-place plan, which the program sends as empty statements: what SQLite does with one is not modelled, so results about running such a plan exclude them by `NoneBlank` (`DesignDialect.TriggersSent` says which are sent).
- DesignKept.PlanKeepsRows: says what values a plan that runs through leaves; when it runs through is proved for PostgreSQL and SQLite only.
- DesignMssql.PlanSettles: assumes the plan runs through, which on SQL Server depends on rules of its own (a type cannot change under a default, a check or a key, among them); so it holds whatever else SQL Server refuses.
- DesignMysql.PlanGives: assumes the plan runs through, which on MySQL depends on rules of its own (one auto-increment column, which must be a key, among them); so it holds whatever else MySQL refuses. That MySQL may drop an index it had made for a foreign key once another takes its place is not modelled.
- An index's definition is compared as it is designed: parts an engine has no clause for (prefix lengths and comments outside MySQL, conditions on MySQL) are taken as kept.
- DesignOrder.OrderLeft: assumes the plan runs through, as `DesignMysql.PlanGives` does.
- Transactions.AllOrNothing: a lost statement is one that did not run; a COMMIT that took effect while its answer was lost is not modelled, nor one the database refuses, as a deferred constraint makes it (PostgreSQL then ends the transaction, SQLite keeps it open).
- Redis as an engine of the designer: the program never offers it one.
- Case folding and trimming: letters beyond ASCII are not folded, and a dollar-quote tag takes ASCII letters, digits and underscores only.
- Offsets are counted in characters, not in bytes or UTF-16 units, and `analyze` is modelled without them.
- GuardLocality.NextPrefix: engines with neither `DELIMITER` nor `GO` lines, which depend on what surrounds them.
- GuardLocality.LexCut: the same engines.
- GuardLocality.TrimKinds: the same engines.
- GuardLocality.NeverCutsAlone: the same engines.
- GuardStability.WordsAreCovered: the same engines.
- GuardStability.SplitIsStable: PostgreSQL and SQLite; MySQL's `DELIMITER` and the look-ahead after `end`, and SQL Server's `GO` lines, depend on context and are not re-split.
- Gate.EditAtTheGate: not SQL Server, whose batches are split again with PostgreSQL's rules.
- DumpRoundTrip.DumpThenRestore: column names are distinct, type names are those of the columns on every page (on SQLite a page's are those of its first values), bytes are an even number of lower-case digits as the driver writes them, and tables do not change while they are paged; the paging SQL itself (`page`) and errors of the session during a dump are not modelled, nor is the rest of a dump file but for routines (`GuardTokens.RoutineSplits`).
- GuardRisk.ExplainAnalyze: `EXPLAIN ANALYZE` with one space on either side and no other option; after options that hold a verb's letters the program finds the verb's first occurrence in the text, which is modelled (`Guard.Classify`) and not characterised.
- DragStream: `Seek`, `Stat` and the size announced beforehand; the position counter does not wrap.
- Projects: storing projects in the vault; sorting is insertion into a list, where the program calls the library's stable sort.
- The time zone and the leap seconds RFC 3339 allows: the program writes UTC without them.
