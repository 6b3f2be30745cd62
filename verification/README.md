# Verification of StormWeaver's metadata catalog, transactions and query generator

StormWeaver drives a database with concurrent random actions and keeps a model
of the schema beside it. This project states in Dafny what that model and the
query generator promise and proves it for every input and every run. Random
draws are arbitrary values in range, server replies arbitrary replies, and every
catalog call one atomic step.

| file | what it models |
|---|---|
| Metadata.dfy | tables, columns, indexes; clearing references |
| Catalogs.dfy | the id-keyed catalog with its sampling vector and name index, over a plain map; the registry |
| TxnBuffers.dfy | the transaction buffer, its overlay, marks and replay, and the merged view |
| Workers.dfy | any number of workers creating, altering, dropping and sweeping tables one catalog call at a time; the life of ids |
| Courses.dfy | what a script of sub-actions makes of the catalog, the buffer, the savepoints and the outcome, without connection, guard or overlay |
| Transactions.dfy | a server connection with savepoints and implicit commits, and the action that drives the buffer in lockstep with it |
| Ddl.dfy, Merging.dfy | what CREATE and DROP TABLE publish; the ALTER TABLE batch, and its merge said of the record before and after alone |
| Normalization.dfy | the id-independent view of a registry |
| QueryIr.dfy, Scopes.dfy, Capture.dfy | queries, when they are well formed, and name capture |
| Magnitudes.dfy | integer evaluation and its bound |
| Leaves.dfy, Conditions.dfy, Joins.dfy, SelectLists.dfy, QueryParts.dfy, Generators.dfy | the query generator and its parts |
| Keywords.dfy, Lexing.dfy, Rendering.dfy, Spacing.dfy | rendered SQL as a list of words and signs, its text and its lexer |
| Parsing.dfy, Reading.dfy, Readability.dfy | a parser for rendered SQL, the round trip, and that the generator's output has the shapes it covers |
| Events.dfy | the structured event printer and parser |

Where the code does less than its description says, the model follows the code:

- A value of bare characters followed by one newline is printed unquoted, and
  the line then does not parse (`Events.RoundTrip`, an equivalence).
- A transaction can be recorded as committed although pg rolled it back: the
  last statement of SELECT resets its time limit and its reply is ignored, so a
  failure there aborts the transaction unnoticed, and COMMIT is accepted all the
  same. The buffer is then published, so the catalog holds changes the server
  does not have. `Transactions.Execute` says exactly when, an equivalence:
  without savepoints if some sub-action let that happen, with savepoints if the
  last one did and was not rewound, and what the catalog then holds.
  `Transactions.SpoiledCommit` is a run that loses a new table. Every other
  transaction has an honest outcome.
- A name can be lost from the index when two live records share it for a moment
  (`OverlaySpec.TransientClashLosesName`; `CatalogSpec.CompleteIffLastClaim` is
  the exact condition).
- A change published late through a buffer is followed up by no worker.
  `Workers.LatePublishExact` says exactly when it leaves no dangling reference
  unanswered, `Workers.BufferedCreateCanDangle` gives a run in which it does.
- A join along a foreign key compares columns of different families if the
  foreign key does, and only then is an ON condition ill-typed
  (`Generators.OnIsTyped`, an equivalence; `Generators.OtherFamily` builds a
  failing condition). CREATE TABLE makes both columns INT and ALTER leaves keys
  and references alone, so this takes tables read from an existing database.
  All other operands have one family.
- A generated CTE hides a catalog table of its name from the query that reads
  it. Every name means what the generator took it for exactly if no table is
  named w1, w2 and so on (`QueryParts.CteNamesExact`, an equivalence over the
  catalog; `QueryParts.CteHidesTable` gives the query that fails).

## Model

| member | source | states |
|---|---|---|
| CatalogSpec.ApplySound | core/include/metadata/catalog.hpp:114-179 | insert, update and erase keep every name entry pointing at a live record of that name and every record under its own id, so no lookup can miss |
| CatalogSpec.NameIndexIsLastClaim | core/include/metadata/catalog.hpp:81-88 | after any run of calls and resets a name is in the index exactly when the last record that claimed it is still live under it, and then leads to that record (last publish wins) |
| CatalogSpec.CompleteIffLastClaim | core/include/metadata/catalog.hpp:130-156 | after a log is published, every live record can be found by its name if and only if no other record claimed that name after it |
| Catalogs.SwapRemoveDense | core/include/metadata/catalog.hpp:168-178 | moving the last id into the hole keeps the sampling vector a duplicate-free list of the keys with every stored position right, and takes out exactly one record |
| Catalogs.Catalog.ById | core/include/metadata/catalog.hpp:75-79 | the record under the id, or none |
| Catalogs.Catalog.ByName | core/include/metadata/catalog.hpp:81-88 | what the name index of the abstract state gives; the slot lookup cannot fail |
| Catalogs.Catalog.RandomPick | core/include/metadata/catalog.hpp:90-97 | none only of an empty catalog, otherwise a live record |
| Catalogs.Catalog.Size | core/include/metadata/catalog.hpp:99-102 | the number of live records |
| Catalogs.Catalog.SnapshotAll | core/include/metadata/catalog.hpp:104-112 | every live record once |
| Catalogs.Catalog.Insert | core/include/metadata/catalog.hpp:114-132 | refines the map insert: refuses id 0 and a live id, otherwise adds the record and claims its name |
| Catalogs.Catalog.Update | core/include/metadata/catalog.hpp:134-160 | refines the map update: refuses a dead id or a refused delta, otherwise keeps the id, raises the version by one and moves the name entry |
| Catalogs.Catalog.Erase | core/include/metadata/catalog.hpp:162-179 | refines the map erase, keeping the vector dense through the swap-remove |
| Catalogs.Catalog.Reset | core/include/metadata/catalog.hpp:181-186 | leaves the empty state |
| Catalogs.Registry.NextId | core/include/metadata/catalog.hpp:202 | a number above every live id, never handed out before |
| Catalogs.Registry.Reset | core/include/metadata/catalog.hpp:211-215 | empties the catalog and does not rewind the id counter |
| OverlaySpec.MergedStep | core/include/metadata/context.hpp:149-186 | one buffered operation does to the merged view what it would do to a plain schema |
| OverlaySpec.ReplaySane | core/include/metadata/context.hpp:188-205 | replaying any log keeps local and erased ids apart and records under their ids |
| OverlaySpec.RollbackRestores | core/include/metadata/context.hpp:71-74 | rolling back to a mark gives back the log and the overlay of the moment the mark was taken, after any commands and nested rollbacks at or above it |
| OverlaySpec.PublishStep | core/include/metadata/context.hpp:86-100 | one published operation keeps catalog and merged view equal up to versions |
| OverlaySpec.PublishIsMerged | core/include/metadata/context.hpp:86-102 | publishing any log turns the catalog into the merged view read just before, up to versions, if deltas ignore versions and inserted ids are not live in the view |
| OverlaySpec.InsertStepExact | core/include/metadata/context.hpp:90-93 | the condition on inserted ids is exact: a published insert keeps the two equal if and only if its id is not 0 and not live in the view, or already carries the same record up to version |
| OverlaySpec.ViewByNameIsTheOne | core/include/metadata/context.hpp:231-245 | over a complete index and distinct names in the view, the merged lookup returns the unique live record of that name, or none if there is none |
| OverlaySpec.ByNameSurvivesCommit | core/include/metadata/context.hpp:231-245 | if no prefix of the log ever gives two live records one name, the lookup inside the transaction and the one after publishing agree on every name and return the unique record |
| OverlaySpec.TransientClashLosesName | core/include/metadata/catalog.hpp:151-157 | the condition is needed: insert C under A's name, then rename C, and A is live but no longer found by name after the publish, although the view found it |
| TxnBuffers.TxnBuffer.RebuildOverlay | core/include/metadata/context.hpp:188-205 | the overlay equals the replay of the log over the catalog |
| TxnBuffers.TxnBuffer.RollbackTo | core/include/metadata/context.hpp:71-74 | truncates the log to the mark and leaves the overlay of what remains |
| TxnBuffers.TxnBuffer.Insert | core/include/metadata/context.hpp:50-53 | appends to the log and keeps the overlay its replay |
| TxnBuffers.TxnBuffer.Update | core/include/metadata/context.hpp:55-61 | accepted exactly when the merged view holds the id and the delta accepts; then logged and applied, otherwise nothing changes |
| TxnBuffers.TxnBuffer.Erase | core/include/metadata/context.hpp:63-69 | accepted exactly when the merged view holds the id; then logged and applied, otherwise nothing changes |
| TxnBuffers.TxnBuffer.PublishAll | core/include/metadata/context.hpp:86-102 | the catalog becomes the state after all logged calls, results ignored, and the buffer is empty |
| TxnBuffers.TxnBuffer.LocalSorted | core/include/metadata/context.hpp:126-134 | the local records, each once, in ascending id order |
| TxnBuffers.CatalogView.ById | core/include/metadata/context.hpp:219-229 | the record of the merged schema under that id |
| TxnBuffers.CatalogView.ByName | core/include/metadata/context.hpp:231-245 | forwards without a buffer; with one, a local record of the name, or else the catalog's unless erased or shadowed |
| TxnBuffers.CatalogView.SnapshotAll | core/include/metadata/context.hpp:265-279 | every record of the merged schema once |
| TxnBuffers.CatalogView.RandomPick | core/include/metadata/context.hpp:247-256 | none only of an empty merged schema, otherwise one of its records |
| TxnBuffers.CatalogView.Size | core/include/metadata/context.hpp:258-263 | the size of the merged schema |
| TxnBuffers.CatalogView.Insert | core/include/metadata/context.hpp:281-290 | catalog insert, or a buffered insert that changes the merged schema and leaves the catalog alone |
| TxnBuffers.CatalogView.Update | core/include/metadata/context.hpp:292-297 | accepted exactly when the merged schema holds the id and the delta accepts it; buffered, it leaves the catalog alone |
| TxnBuffers.CatalogView.Erase | core/include/metadata/context.hpp:299-304 | accepted exactly when the merged schema holds the id; buffered, it leaves the catalog alone |
| Workers.StepKeepsInv | core/src/action/ddl.cpp:242-252 | every single catalog call of any worker keeps the invariant that each dangling reference has a worker that will still deal with it |
| Workers.StepCovers | core/src/action/ddl.cpp:185-195 | a reference that dangles after a step is answered for by its creator, who has not passed its check, or by the dropper, who has not swept it |
| Workers.NoDanglingReference | core/src/action/ddl.cpp:242-252 | for any number of workers and every interleaving of their catalog calls, no live table refers to a dead id when no worker is mid-publish; in between, someone answers for each such reference |
| Workers.StepEffect | core/src/action/ddl.cpp:185-252 | what each step does to the tables: a new table is never refused and live as built, a dropped one is gone, a check, sweep or ALTER touches one table only |
| Workers.LiveReferenceSurvives | core/src/action/ddl.cpp:185-195 | after any run, a reference to a live table survives any further steps of any workers, unless one of the two tables goes, an ALTER hits the referring table or a sweep is for just that target |
| Workers.BufferedCreateCanDangle | core/include/metadata/context.hpp:82-85 | the condition is needed: a concrete run in which a create published late leaves a dangling reference no worker answers for |
| Workers.LatePublishExact | core/include/metadata/context.hpp:82-102 | a single call published late keeps the invariant if and only if each dead table it makes a live table refer to still has a worker to clear that reference: for creates, changes and drops |
| IdRuns.OneStretch | core/include/metadata/catalog.hpp:211-215 | in every multi-worker run, resets and late publishes included, an id that was live and is not any more never comes back |
| IdRuns.VersionCountsUpdates | core/include/metadata/catalog.hpp:146-147 | between two moments at which an id is live its version grew by exactly the number of accepted updates in between |
| IdRuns.LateUpdateNeverRevives | core/include/metadata/context.hpp:82-85 | a buffered update replayed after another worker erased the record changes nothing, and no later call revives the id |
| Connections.TxGuard.Destroy | core/include/action/helper.hpp:22-31 | rolls back exactly when still armed, whatever ROLLBACK answers, and leaves no transaction open then |
| Transactions.SelectThenModify | core/src/action/dml.cpp:101-125 | opens a transaction of its own only outside one; success means that it is committed, and the durable schema is what the statements made of it, failure that it is rolled back and nothing is durable; no way out leaves it open; inside a transaction the end is left to the owner |
| Courses.StripOnSchema | core/include/metadata/context.hpp:292-297 | a change that ignores versions does the same, and is accepted alike, on a schema and on the schema without versions |
| Courses.LandedIs | core/include/metadata/catalog.hpp:114-179 | up to versions, the catalog after any list of direct calls is the plain map those calls make of it, calls on dead ids and inserts under live ids skipped |
| Courses.LeavesAtFirstDdl | core/src/action/transaction.cpp:121-165 | the transaction is committed behind its back if and only if a mysql DDL reached the server, and that commit is counted once |
| Courses.AllCounted | core/src/action/transaction.cpp:134-147 | every sub-action after which the script goes on counts once as ok or once as failed, and as both only if rewinding a success was refused |
| Courses.CalmIsDetermined | core/src/action/transaction.cpp:114-274 | if the server refuses none of the transaction's statements, the script and the last draw determine how every sub-action goes, the outcome with its counts, the way out and the catalog |
| Courses.StaysInside | core/src/action/transaction.cpp:121 | on pg nothing reaches the catalog and nothing is committed before the end |
| Transactions.DoWork | core/src/action/transaction.cpp:193-197 | one change through the buffered view and the same change on the server keep view and server equal, the catalog untouched and the log publishable; the log grows by exactly the change if it is accepted |
| Transactions.RunBuffered | core/src/action/transaction.cpp:186-258 | a sub-action starts with the view equal to the server's schema and, if it returns, leaves them equal, however much it changed; view, log and id counter are what its changes make of them |
| Transactions.TakeSavepoint | core/src/action/transaction.cpp:186-189 | client and server savepoint stacks grow together, each mark at the log length of the saved schema; a refusal throws with everything as it was |
| Transactions.Rewind | core/src/action/transaction.cpp:199-211 | ROLLBACK TO any earlier savepoint restores server schema, buffer and log alike, cuts both stacks to the same length and is counted |
| Transactions.Recover | core/src/action/transaction.cpp:213-239 | after a failure the transaction is rewound to the newest savepoint, counted as rewound and as failed, or, if the server is gone or refuses, thrown out of with the guard left to end what is open |
| Transactions.RewindSuccess | core/src/action/transaction.cpp:198-212 | a success is rewound to exactly the savepoint drawn; if the server refuses that once, it counts as a failure as well |
| Transactions.SavepointSub | core/src/action/transaction.cpp:186-239 | savepoint mode: success, failure and the drawn rewind each leave view, log, savepoints, id counter and counts as the step of the course says, and view and server agree again; it throws only for a lost server or a refused SAVEPOINT or ROLLBACK TO; pg is left aborted exactly by an ignored failure of this sub-action without a rewind after it |
| Transactions.AbortSub | core/src/action/transaction.cpp:240-259 | abort mode: it goes on exactly when the sub-action returned, with view, log, counter and counts as the course says; a failure throws, with the guard still armed exactly when the server is there, and pg then counts as aborted exactly when a failure was ignored |
| Transactions.RunImplicit | core/src/action/transaction.cpp:131-147 | mysql DDL that returns after sending SQL has made the transaction's work durable and published its own changes directly; a no-op leaves transaction and catalog untouched |
| Transactions.MirrorDdl | core/src/action/transaction.cpp:121-165 | the transaction counts as over, its work durable, buffer published after what the DDL itself published, savepoints gone, guard disarmed and commit counted, exactly when a statement reached the server; otherwise catalog and buffer are untouched; a throw leaves in the catalog just what the DDL published |
| Transactions.RunTail | core/src/action/transaction.cpp:167-184 | after the implicit commit a sub-action publishes all its changes straight to the catalog, each new table under the next id, however it ends, and is counted as it ended; it leaves no transaction open and throws only when the server is gone |
| Transactions.Finish | core/src/action/transaction.cpp:262-274 | sends COMMIT or ROLLBACK as drawn; the outcome is set exactly if the server accepts it, and an accepted COMMIT turns the catalog into what the transaction saw, on pg and mysql; on pg that is the durable schema unless the server had already aborted the transaction, and then exactly if nothing had changed; any other end leaves catalog and durable schema as they were |
| Transactions.SpoiledCommit | core/src/action/dml.cpp:404-409 | the outcome can be wrong: in every execution of a CREATE TABLE and a SELECT whose ignored last statement failed, an outcome of committed means that the work was rolled back, and that the new table is in the catalog and not on the server |
| Transactions.CleanUp | core/src/action/transaction.cpp:98-104 | guard then recorder: nothing stays open, and exactly one outcome is recorded, once that is so |
| Transactions.Execute | core/src/action/transaction.cpp:78-278 | on pg and mysql and for every script, configuration and reply: how each sub-action went, the recorded outcome with all its counts, whether it returns or throws, and the catalog afterwards are one course of the script from the schema before, a determined one if the server refuses none of the transaction's statements; BEGIN is never sent while a transaction is open, no path out leaves one open, one outcome per BEGIN, which says committed exactly when COMMIT was accepted; on pg the work is then lost exactly when a sub-action had let the transaction abort and nothing revived it, so without ignored failures the outcome is always true; a real commit leaves the catalog equal to the server schema, every other exit leaves it, and what is not committed the durable schema, unchanged |
| Metadata.RemoveReferencesTo | core/src/metadata/table.cpp:14-23 | every reference to the target is cleared, and nothing else of any column or of the table is touched; tells whether there was one |
| Metadata.DropRefsExact | core/src/metadata/table.cpp:14-23 | the same of the delta that checks and sweeps use, which refuses exactly a table without such a reference |
| Metadata.WithoutRefsToRefs | core/src/metadata/table.cpp:14-23 | clearing one target takes exactly that id out of the set of referenced ids |
| Metadata.HasReferenceToRefs | core/src/metadata/table.cpp:8-12 | true exactly when the id is referenced |
| DdlPublish.PublishCreate | core/src/action/ddl.cpp:185-195 | the table is live exactly as given, or, when its target is not live, with just that reference cleared; nothing else changes |
| DdlPublish.CreateKeepsClosed | core/src/action/ddl.cpp:185-195 | so alone it keeps every reference pointing at a live table |
| DdlPublish.PublishDrop | core/src/action/ddl.cpp:242-252 | the table is gone, every remaining table that referred to it loses exactly those references, and the others are untouched |
| DdlPublish.DropKeepsClosed | core/src/action/ddl.cpp:242-252 | so alone it keeps every reference pointing at a live table |
| AlterTables.DropTurn | core/src/action/ddl.cpp:315-338 | drops the drawn column exactly when three columns are left, it is not the first and, on mysql, no reference; never a changed or already dropped one |
| AlterTables.ChangeTurn | core/src/action/ddl.cpp:339-360 | turns an available numeric column that is neither key nor reference into text, and does nothing exactly when there is none |
| AlterTables.Emit | core/src/action/ddl.cpp:297-374 | for every sequence of turns, the subcommands are those the turns come down to: a turn finds free exactly the columns no subcommand before it uses; the recorded delta equals them applied one by one, on any record; changes are to text only, of different columns, and the access method changes at most once |
| AlterTables.BatchIsInOrder | core/src/action/ddl.cpp:384-424 | all drops, then type changes, then adds give the same record as the subcommands in emitted order, when no column is both dropped, changed or added |
| AlterTables.BatchKeepsIndexesOk | core/src/action/ddl.cpp:392-412 | on any current record, with pg or mysql index handling, every index stays non-empty and on existing columns |
| AlterTables.BatchKeepsColumns | core/src/action/ddl.cpp:316-325 | on the snapshot as many columns remain as the batch says, at least two, and the first one stays first with only type and length open to a change by name, which is never emitted for a key |
| AlterTables.BatchAddsNoRef | core/src/action/ddl.cpp:384-424 | on any current record the batch adds no reference, which is what the worker protocol asks of ALTER, since new columns are none |
| AlterTables.BatchIsBlind | core/src/action/ddl.cpp:384-424 | records that differ in their versions only get the same change, which is what publishing late asks of a delta |
| AlterTables.Merge | core/src/action/ddl.cpp:384-424 | the in-place merge computes the delta, |
| Merging.MergeExact | core/src/action/ddl.cpp:384-424 | and on distinct column names that delta is: dropped columns gone, changed ones with the new type and length and all else as before, the others untouched, all in their order, the new ones at the end; on pg exactly the indexes on no dropped column stay, untouched, on mysql each keeps exactly its other key parts in order and only emptied ones go |
| AlterTables.EraseFromIndexes | core/src/action/ddl.cpp:392-412 | pg drops each index on the column, mysql takes out the key part and then empty indexes |
| Sorting.SortsAgree | core/src/metadata/table.cpp:55-63 | sorting by distinct keys gives one result whatever the order before |
| Normalization.NormalizeTable | core/src/metadata/table.cpp:41-70 | one table's id-free form: references by name, columns, indexes and ranges sorted |
| Normalization.Normalize | core/src/metadata/table.cpp:37-80 | the sorted list of all tables' id-free forms |
| Normalization.RelatedNormalizeEqually | core/src/metadata/table.cpp:37-80 | registries related by an id bijection that carries foreign keys along normalize equally, whatever ids and orders |
| Normalization.EqualFormsAreRelated | core/src/metadata/table.cpp:27-33 | unless a table is named like no reference or like a dangling one, equal normal forms imply such a bijection, dangling references included |
| Normalization.NormalFormsDecide | core/src/metadata/table.cpp:37-80 | so the normal forms are equal if and only if the registries are so related |
| Normalization.OtherNamesConfuse | core/src/metadata/table.cpp:27-33 | a failing input for either of those two names: a self-reference that normalizes like no reference, or like a dangling one |
| Leaves.PickColumn | core/src/querygen/generator.cpp:88-108 | a column of the family in scope, and none only if the scope has none |
| Leaves.GenLiteral | core/src/querygen/generator.cpp:110-134 | a literal of the type: integers and reals from 1 to a million, strings of at most 16 characters and of the column's length |
| Leaves.GenLeaf | core/src/querygen/generator.cpp:136-143 | a column in scope or a literal, of the asked family |
| Conditions.MulOk | core/src/querygen/generator.cpp:185-196 | a leaf times a literal of at most ten stays within the cap: the point of the multiplication guard |
| Conditions.SumOk | core/src/querygen/generator.cpp:197-205 | sums, differences and guarded quotients of two trees stay within the doubled cap |
| Conditions.CmpSubqueryOk | core/src/querygen/generator.cpp:388-404 | a comparison with a one-item, one-row subquery of the compared family is well formed and reads what the subquery reads |
| Conditions.GenBetween | core/src/querygen/generator.cpp:449-459 | a numeric column between two literals exactly if the scope has such a column |
| Conditions.GenInList | core/src/querygen/generator.cpp:460-478 | a column against one to five literals of its family |
| Conditions.GenLike | core/src/querygen/generator.cpp:479-499 | a text column against a pattern of one to eight harmless characters exactly if the scope has such a column |
| Generators.Generator.GenScalar | core/src/querygen/generator.cpp:145-286 | terminates; the result has the asked family, resolves in scope, has no subquery and stays within the cap of its depth |
| Generators.Generator.GenMod | core/src/querygen/generator.cpp:207-234 | both operands are exact integers and the right one is NULLIF(_, 0) |
| Generators.Generator.GenCase | core/src/querygen/generator.cpp:257-269 | conditions get no subquery, all results have the asked family |
| Generators.Generator.GenBool | core/src/querygen/generator.cpp:319-506 | terminates; the condition is well formed over the scope, reads only catalog tables, each under a fresh alias, nests subqueries no deeper than the remaining budget and has none, and a bounded magnitude, once that is spent |
| Generators.Generator.GenSubqueryBool | core/src/querygen/generator.cpp:300-317 | EXISTS, or IN with a one-column subquery of the operand's family without ORDER BY, LIMIT or OFFSET |
| SelectLists.TrimKeepsList | core/src/querygen/generator.cpp:288-298 | keeping one item keeps the select list well formed, grouping included |
| SelectLists.GenAggCall | core/src/querygen/generator.cpp:903-956 | an aggregate over a column whose family suits the function; COUNT(*) otherwise |
| SelectLists.GenWindowCall | core/src/querygen/generator.cpp:829-901 | a window call whose argument, partition and order columns are in scope |
| SelectLists.GenAggItems | core/src/querygen/generator.cpp:691-718 | plain columns of an aggregated query are grouped, grouped columns are distinct, HAVING compares an aggregate with a literal of its family |
| SelectLists.Reshape | core/src/querygen/generator.cpp:777-797 | the right side gets the left side's arity, families and labels; only replaced items become literals |
| Joins.CollectEdges | core/src/querygen/generator.cpp:553-585 | every edge links a foreign key to the key column it references, and every foreign key between the table and a candidate, in either direction, has its edge |
| Joins.GenJoin | core/src/querygen/generator.cpp:587-643 | the condition equates a column of the new table with one joined before it; without a condition it is the first cross join or the two tables have no columns of one family to equate |
| Generators.Generator.GenFrom | core/src/querygen/generator.cpp:532-667 | at most max_joins joins, at most one cross join, and only it has no condition; no RIGHT join in a primary-key select |
| Generators.Generator.AddTail | core/src/querygen/generator.cpp:749-775 | at most two ORDER BY items, each a selected column; LIMIT from 1 to 1000, OFFSET only with it and at most 100, neither in a primary-key select; DISTINCT only over a plain select list |
| Generators.Generator.GenQuery | core/src/querygen/generator.cpp:508-827 | terminates for every draw and configuration by extras flag, remaining subquery depth, query or expression, and expression depth; the query is well formed, plain when extras are off, has at most max_joins joins, nests subqueries within the budget, uses INTERSECT and EXCEPT only where supported, and declares only fresh aliases |
| Generators.Generator.Generate | core/src/querygen/generator.cpp:958-968 | nothing only without tables, otherwise a well-formed query that reads only the tables, its CTE and the target, in which every column reference means one table in sight, and every table name the table it was taken from if no table has a name a CTE can get, or none the name of this query's CTE |
| QueryParts.CteHidesTable | core/src/querygen/generator.cpp:515-530 | over any tables, one of which has the number-n name of a CTE, the generator may build a query that means to read that table and gets the CTE |
| QueryParts.CteNamesExact | core/src/querygen/generator.cpp:515-530 | every name of every query the generator may build means the table it was taken from if and only if no table, target included, is named w and a positive number |
| Generators.Generator.GeneratePkSelect | core/src/querygen/generator.cpp:970-988 | exactly the target's first column, limited and locked as asked; locked, it names the FROM alias and is never DISTINCT |
| Generators.Generator.GeneratePredicate | core/src/querygen/generator.cpp:990-998 | a well-formed condition over the qualified target, nested at most max_subquery_depth deep, whose subqueries, at any depth, read other tables only, and in which every column reference means one table unless the qualifier is itself a generated alias |
| Generators.NeverReadsTarget | core/src/querygen/generator.cpp:992-994 | with distinct table names no source at any depth carries the target's name |
| Generators.OnIsTyped | core/src/querygen/generator.cpp:590-642 | over any joined tables, every ON condition is a well-formed comparison over the aliases joined so far if and only if every foreign key between them has the family of the key it references |
| Generators.OnTypedExact | core/src/querygen/generator.cpp:590-642 | an ON condition is well formed if and only if its two columns are of one family |
| Generators.OtherFamily | core/src/querygen/generator.cpp:553-585 | a failing condition, built from any foreign key of another family, in either direction; between tables the actions created there is none, a schema read from a database may bring one |
| Generators.GeneratedStaysSmall | core/src/querygen/generator.cpp:182-206 | no numeric node of a scalar of depth at most 8, conditions included, ever evaluates beyond the signed 32-bit range on columns within a million |
| Magnitudes.WithinSound | core/src/querygen/generator.cpp:182-206 | static bounds are sound: every integer value computed on the way stays within them, whichever CASE branches are taken |
| Magnitudes.CapFits | core/src/querygen/generator.cpp:186-187 | ten million doubled per level fits 32 bits exactly up to depth 8 |
| Scopes.OwnedJoin | core/src/querygen/generator.cpp:84-86 | parts numbered one after the other share no alias |
| Capture.NoCapture | core/src/querygen/generator.cpp:740-747 | in a well-formed condition whose subqueries declare each alias once, apart from those in sight, every column reference at any depth means exactly one table in sight where it stands, and that table has the column |
| Capture.NoCaptureQuery | core/src/querygen/generator.cpp:740-747 | the same for every reference in select list, joins, grouping, HAVING, WHERE and ORDER BY of a query, its CTEs, its set operation and its correlated subqueries |
| Rendering.EscapeStringLiteral | core/src/querygen/render.cpp:13-24 | the loop writes the literal with every quote doubled |
| Lexing.QuotedReads | core/src/querygen/render.cpp:13-24 | a literal with doubled quotes reads back whatever it contains (section 5.3 of ISO/IEC 9075-2) |
| Keywords.LookupSpelling | core/src/querygen/render.cpp:26-144 | the keywords are spelled apart |
| Lexing.LexText | core/src/querygen/render.cpp:164-364 | text in which no word, number or literal runs into the next determines its words and signs: the lexer gives them back |
| Spacing.SpacedExpr | core/src/querygen/render.cpp:164-296 | rendered expressions are such text |
| Spacing.SpacedQuery | core/src/querygen/render.cpp:300-364 | rendered queries are such text |
| Reading.ReadExpr | core/src/querygen/render.cpp:164-296 | the parser reads a rendered expression back, up to types, and stops where it ends, in both forms of concatenation |
| Reading.ReadIn | core/src/querygen/render.cpp:216-226 | IN lists and IN subqueries are told apart |
| Reading.ReadWindow | core/src/querygen/render.cpp:266-292 | window calls and aggregates are told apart |
| Reading.ReadBody | core/src/querygen/render.cpp:300-328 | select list, joins, WHERE, GROUP BY and HAVING read back |
| Reading.ReadQuery | core/src/querygen/render.cpp:330-364 | CTEs, set operations, ORDER BY, LIMIT, OFFSET and lock read back |
| Reading.ExprRoundTrip | core/src/querygen/render.cpp:368-370 | parsing the text of an expression gives it back up to type annotations |
| Reading.QueryRoundTrip | core/src/querygen/render.cpp:372-374 | parsing the text of a query gives it back up to type annotations, |
| Reading.QueryInDialect | core/src/querygen/render.cpp:201-209 | and every concatenation in the text, at any depth, is in the form of the dialect asked for: no bars for one that calls CONCAT, no CONCAT for the other |
| Reading.ExprInDialect | core/src/querygen/render.cpp:201-209 | the same for an expression |
| Reading.UniquelyReadable | core/src/querygen/render.cpp:300-364 | queries that render alike, in the same dialect or not, are equal up to type annotations |
| Readability.GeneratedShaped | core/src/querygen/generator.cpp:508-827 | every generated query over tables with good names has the shapes that read back, floating literals aside |
| Readability.PredicateShaped | core/src/querygen/generator.cpp:990-998 | and so has every generated predicate |
| Readability.GeneratedRoundTrip | core/src/querygen/render.cpp:372-374 | so parsing the text of a generated query without floating literals gives the query back |
| Readability.PredicateRoundTrip | core/src/querygen/render.cpp:368-370 | and parsing the text of such a predicate gives the predicate back |
| Events.ChainIsEscape | python/stormweaver/events.py:18-23 | the four replacements in a row escape character by character |
| Events.UnescapeEscape | python/stormweaver/events.py:30-31 | unescaping undoes escaping for every string |
| Events.UnquotedIff | python/stormweaver/events.py:15-17 | a value goes out unquoted exactly when it is bare or is bare plus one trailing newline, which the anchor lets through |
| Events.ParseEvent | python/stormweaver/events.py:58-71 | the moving position computes the recursive parse |
| Events.RoundTrip | python/stormweaver/events.py:34-71 | printing and parsing gives kind and fields back if and only if no value is bare plus one trailing newline; otherwise the line does not parse |
| Events.OneLineIffSurvives | python/stormweaver/events.py:15-37 | a message stays on one line if and only if it parses back: line breaks in values are escaped otherwise |

## Left out

- Memory, locks and exception safety on allocation failure: every catalog call is one atomic step on values, so sharing of records does not show.
- 64-bit wrap-around of ids, versions and counters: they are unbounded numbers.
- Drivers, logging, statistics counters, process and container management, bindings, the Python scenarios: I/O with no property of this kind.
- The random number generator: every draw is any value in its range; the weighted choice of actions and of isolation levels is any choice.
- Actions other than those modelled, and user-supplied ones: a sub-action is any list of schema changes with any ending, drawn before it runs, and only inside a transaction are its changes tied to the server's.
- DELETE and UPDATE in a transaction of their own change no metadata; the schema they leave on the server is arbitrary.
- Exceptions other than SQL errors and action errors leaving a sub-action.
- Termination of the loop around one ALTER TABLE subcommand, which depends on the draws: `AlterTables.Emit` is given the finite list of turns it took.
- AlterTables.Emit: the access-method change is emitted once at most and is not part of the recorded delta, as in the code.
- Drift between workers when a whole buffer is published late, beyond what `Workers.LatePublishExact` says of each call and `IdRuns.LateUpdateNeverRevives` of updates: the code tolerates it.
- The sweep after DROP PARTITION appears in `Workers` as a sweep of a live table; which partitions exist is not tracked there. The populator is not part of the model.
- Rendering is written with the text that follows as an argument and as a list of words and signs; the string buffers of the original body and tail functions are not modelled one append at a time, only the literal's is.
- Reading.ExprRoundTrip: no floating literals, no negative integer literals, names that are words and spell no keyword, subqueries inside expressions without CTEs or set operations; other text is not claimed to be readable. The same goes for Reading.QueryInDialect.
- Magnitudes.WithinSound: strings count by length only and LOWER and UPPER keep it; truth of conditions is arbitrary; floating arithmetic is not evaluated.
- Generators.Generator.GenQuery: a table without columns is not covered; the catalog holds none.
- A server lost at the statement whose reply is ignored is lost at the next one in the model.
- Full SQL semantics of generated queries: scope, families, shape and integer evaluation only.
- Probabilities: only the bounds of each draw are kept, not how often a branch is taken.
- The class of word characters of the event parser is any class without the equals sign and the newline, which the Unicode one is.
- Text dumps of tables in core/src/metadata/table.cpp and CSV output: easy members.
