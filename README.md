# Db2Utils in Dafny

This project models the core of Db2Utils, a set of Python utilities for IBM Db2
databases, and proves properties of the model. It has five parts.

- **The DDL regenerator** (`DBParser/DBParser.py`):
  - `DBGraph` loads the catalog into dictionaries of tables, views, indexes,
    routines, constraints and triggers.
  - It folds the catalog's dependency rows into an edge map and orders the
    nodes so that dependencies come first.
  - It then writes the `CREATE` statement and the `COMMENT ON` statements of
    every object in that order.
  - Last, it writes a `RESTART WITH` statement for every table that has an
    identity column.
  - Modules `DdlObjects` (the renderers) and `DdlGraph` (the graph, its
    loaders and the emission pass).
- **The schema comparer's snapshot** (`CompareDB/DB.py`, `DBTable.py`,
  `DBIndex.py`, `DBConstraint.py`):
  - Cursor loops group sorted catalog rows into tables, indexes, candidate
    keys, foreign keys and check constraints.
  - The objects turn catalog codes into DDL keywords and render canonical
    text.
  - Modules `CompareDb` (the `DB` class and its loops) and `CompareObjects`.
  - Module `Grouping` states once what "a new object starts at this row"
    means for all the cursor loops.
- **The foreign-key recreate script** (`print_recreate_fk.py`). It writes a
  drop and a create statement for every foreign key that refers to one of
  the named tables.
  Module `RecreateFk`. The modelled script uses the rule CASE as written;
  `CorrectedScript` beside it keeps SET NULL (see "## Findings").
- **The export/load script writer** (`DBParser/DBMove.py`). It orders tables
  so that referenced tables come first and writes an export script and a load
  script. Module `DbMove`.
- **The index advisor's bookkeeping** (`IndexAdvisor/index_advisor.py`):
  - query clean-up;
  - the power set of the suggested indexes;
  - the size filter;
  - the enable/disable split;
  - the recorded index list and its column width.
  - Module `IndexAdvisor`.

Shared modules:
- `Wrappers`: `Option` and `Result`.
- `Text`: the Python string operations the renderers use (`join`, `strip`,
  `str(n)`, `split` with empty pieces dropped).
- `TopoSort`: the merged edge map and a dependency ordering.

Each catalog query is modelled as the sequence of rows it returns, in the
order the query's `ORDER BY` gives. Where the source would raise or call
`sys.exit`, the model returns a `Failure` (or `false` from a method), so no
operation requires more of its input than the source does.

Where the source mutates state step by step, the model is imperative:
- `DdlGraph.DBGraph` and `CompareDb.DB` are classes whose fields are the
  source's dictionaries and lists.
- The fetch loops, the emission pass, the character scan of `DBRoutine`, the
  statement loops of the recreate script, the writing loop of `DBMove` and
  the combination loop of the index advisor are methods with loops.
- Each of these is proved equal to a function, and the lemmas are proved
  about that function.

The renderers and the code mappings are pure functions.

## Model

| member | source | states |
|---|---|---|
| DdlObjects.WideCount | DBParser/DBParser.py:323 | the count of characters above code point 127 is at most the remark's length |
| DdlObjects.AsciiRemarkLength | DBParser/DBParser.py:320-327 | a pure-ASCII remark counts with its plain length |
| DdlObjects.WideRemarkLength | DBParser/DBParser.py:320-327 | every non-ASCII character counts twice towards the remark limit |
| DdlObjects.CommentOn | DBParser/DBParser.py:320-333 | the comment text is empty exactly for an empty remark; it starts with `echo ` exactly when the remark length (non-ASCII counted twice) reaches 255; otherwise it ends with the quoted `COMMENT ON` statement for the target |
| DdlObjects.ColumnTail | DBParser/DBParser.py:425-436 | ` NOT NULL` leads the tail exactly when the column is `N`; after it a by-default or always generated column starts its `GENERATED BY DEFAULT`/`GENERATED ALWAYS` clause, and any other column ends in `AS IDENTITY` exactly when it is an identity column and is otherwise empty |
| DdlObjects.ColumnDdl | DBParser/DBParser.py:418-438 | a column definition starts with name, type and length clause and ends with its tail |
| DdlObjects.ColumnLengthShown | DBParser/DBParser.py:419-423 | a `(` follows the name and type exactly for CHARACTER and VARCHAR columns, so the nested DECIMAL branch never shows precision and scale |
| DdlObjects.ColumnEnding | DBParser/DBParser.py:428-436 | identity columns end in `AS IDENTITY`; generated columns that are not identity end in their expression |
| DdlObjects.LengthClause | DBParser/DBParser.py:419-421 | the length clause is empty exactly for non-character types, and is otherwise the length's decimal text in parentheses |
| DdlObjects.AddColumn | DBParser/DBParser.py:311-312 | `add_column` appends the column and changes nothing else |
| DdlObjects.IdentityColumn | DBParser/DBParser.py:314-318 | the result is none exactly when no column is identity, and otherwise the first identity column |
| DdlObjects.ColumnDdls | DBParser/DBParser.py:338-340 | one definition per column, in insertion order |
| DdlObjects.ColumnLinesJoin | DBParser/DBParser.py:337-341 | the column lines are the definitions joined by a newline and `, `, the first preceded by a space |
| DdlObjects.SpaceClause | DBParser/DBParser.py:343-348 | `IN` the table space, with `INDEX IN` only when an index space is set and `LONG IN` only when a long space is set |
| DdlObjects.OrganizeClause | DBParser/DBParser.py:352-357 | `ORGANIZE BY ROW` exactly when organisation is `R`, `ORGANIZE BY COLUMN` otherwise |
| DdlObjects.TableDdl | DBParser/DBParser.py:335-359 | `CREATE TABLE` with the column lines in insertion order, then the space clause, and it ends with the compression and organisation clauses |
| DdlObjects.CompressClause | DBParser/DBParser.py:350-351 | adaptive compression exactly when the compression attribute is set |
| DdlObjects.TableRemarks | DBParser/DBParser.py:320-333 | the table's comment first, then the column comments in column order |
| DdlObjects.ColumnRemarksOf | DBParser/DBParser.py:440-449 | one comment text per column, in column order |
| DdlObjects.ViewDdl | DBParser/DBParser.py:369-378 | the view text terminated by ` @`, the optimisation statement, and it ends with the refresh statement |
| DdlObjects.ViewOptimizationClause | DBParser/DBParser.py:371-372 | query optimisation is enabled exactly for code `Y` |
| DdlObjects.ViewRefreshClause | DBParser/DBParser.py:374-375 | a refresh statement follows exactly for view type `S` |
| DdlObjects.AddIndexColumn | DBParser/DBParser.py:472-476 | an `I` column is appended to the include list and any other to the key list, nothing else changes |
| DdlObjects.KeyText | DBParser/DBParser.py:493-501 | a key column is its name followed by ` DESC` for order `D`, and its bare name for any other order |
| DdlObjects.KeyTexts | DBParser/DBParser.py:493-502 | one key text per key column, in order |
| DdlObjects.KeyListJoin | DBParser/DBParser.py:493-502 | the key list is the key texts joined by `, ` in insertion order |
| DdlObjects.IncludeClause | DBParser/DBParser.py:503-507 | the INCLUDE clause is present exactly when there are include columns and lists them in order |
| DdlObjects.XmlPatternClause | DBParser/DBParser.py:508-518 | present exactly for `XVIL` indexes, and then the quoted pattern, `AS SQL` with the data type, its size clause and the invalid-values clause of the type model |
| DdlObjects.XmlSizeClause | DBParser/DBParser.py:511-516 | `(length OCTETS)` for character types, `(length, scale)` for DECIMAL, and nothing for any other type |
| DdlObjects.InvalidValuesClause | DBParser/DBParser.py:515-518 | invalid values are ignored exactly for type model `Q`, rejected otherwise |
| DdlObjects.UniqueWord | DBParser/DBParser.py:490-491 | `UNIQUE ` exactly for unique rules `P` and `U` |
| DdlObjects.CompressFlag | DBParser/DBParser.py:520-521 | `COMPRESS YES` exactly for code `Y` |
| DdlObjects.ClusterFlag | DBParser/DBParser.py:522-523 | `CLUSTER` exactly for index type `CLUS` |
| DdlObjects.NullKeysFlag | DBParser/DBParser.py:524-525 | `EXCLUDE NULL KEYS` exactly for code `N` |
| DdlObjects.IndexDdl | DBParser/DBParser.py:488-529 | `CREATE [UNIQUE] INDEX` on the table with the key list, and it ends with the options, reverse scans and sampled statistics |
| DdlObjects.AddParam | DBParser/DBParser.py:561-563 | an SQL routine ignores a parameter; an external routine appends it |
| DdlObjects.SearchClose | DBParser/DBParser.py:543-559 | the scan finds the first position from its start at which the parenthesis depth returns to zero after a `(`, or reports that there is none |
| DdlObjects.SpecificPos | DBParser/DBParser.py:543-559 | the insertion point exists exactly when some position closes the first group, and it is the first such position |
| DdlObjects.SpecificRemovable | DBParser/DBParser.py:538-559 | taking the inserted `SPECIFIC` clause out again gives the routine text followed by ` @`; a text that already mentions `specific` in any case is left alone |
| DdlObjects.SpecificAfterParen | DBParser/DBParser.py:543-559 | the `SPECIFIC` clause goes right after a parenthesis |
| DdlObjects.CloseNeedsParen | DBParser/DBParser.py:543-559 | the depth can only come back to zero at a parenthesis, so a closing position without one has a closing position before it |
| DdlObjects.RenderRoutine | DBParser/DBParser.py:538-559 | the character loop with its depth counter and start flag computes the routine text of the specification |
| DdlObjects.ParameterText | DBParser/DBParser.py:593-605 | the type after a space; CHARACTER and VARCHAR add `(length)` and ` FOR BIT DATA` exactly for code page 0, DECIMAL adds `(length,scale)`, any other type adds nothing; the parameter name never appears |
| DdlObjects.ParameterNameIgnored | DBParser/DBParser.py:594-597 | the parameter's name takes no part in its text, because the source overwrites it with the type |
| DdlObjects.ParameterTexts | DBParser/DBParser.py:637-640 | one text per parameter, in order |
| DdlObjects.SqlDataAccessClause | DBParser/DBParser.py:674-681 | `NO SQL` exactly for `N`, `MODIFIES SQL DATA` exactly for `M`, `CONTAINS SQL` exactly for `R` or `C`, and nothing for any other code; never a line break |
| DdlObjects.ReturnsClause | DBParser/DBParser.py:643-651 | `RETURNS` and the type; CHARACTER and VARCHAR add `(length)` and ` FOR BIT DATA` exactly for code page 0, DECIMAL adds `(length,scale)`, any other type nothing; one line |
| DdlObjects.RoutineSignature | DBParser/DBParser.py:632-642 | the statement opens with `CREATE OR REPLACE FUNCTION` exactly for routine type `F` and with `PROCEDURE` otherwise, and the head ends with the parameter texts joined by `, ` between ` (` and `)` |
| DdlObjects.FenceWord | DBParser/DBParser.py:657-660 | `FENCED` exactly for code `Y`, `NOT FENCED` otherwise |
| DdlObjects.ThreadsafeWord | DBParser/DBParser.py:662-665 | `THREADSAFE` exactly for code `Y`, `NOT THREADSAFE` otherwise |
| DdlObjects.DeterministicWord | DBParser/DBParser.py:668-671 | `DETERMINISTIC` exactly for code `Y`, `NOT DETERMINISTIC` otherwise |
| DdlObjects.ExternalActionWord | DBParser/DBParser.py:684-687 | `NO EXTERNAL ACTION` exactly for code `N`, `EXTERNAL ACTION` otherwise |
| DdlObjects.RoutineOptionLines | DBParser/DBParser.py:657-689 | the option lines: the first opens with `NOT FENCED` exactly when fenced is not `Y` and ends with `NOT THREADSAFE` exactly when thread-safety is not `Y`; the second is `DETERMINISTIC` exactly for `Y`; the SQL data access line is present exactly when the code has a clause; then NO EXTERNAL ACTION exactly for `N`, and the terminator ` @` |
| DdlObjects.RoutineOptions | DBParser/DBParser.py:657-689 | split at its line breaks, the option block gives exactly `RoutineOptionLines`; it opens with `NOT FENCED` exactly when fenced is not `Y` and ends with the NO EXTERNAL ACTION line exactly for `N` |
| DdlObjects.ExternalRoutineDdl | DBParser/DBParser.py:631-691 | the statement starts with the signature, the RETURNS line and the SPECIFIC, EXTERNAL NAME, LANGUAGE and PARAMETER STYLE lines, and ends with the option lines; it creates a FUNCTION exactly for type `F`, a PROCEDURE otherwise, and ends with NO EXTERNAL ACTION exactly for `N` |
| DdlObjects.DecimalParameterHasComma | DBParser/DBParser.py:602-605 | a DECIMAL parameter's text contains a comma, so the joined parameter list cannot be split back at commas |
| DdlObjects.EnforcedClause | DBParser/DBParser.py:739-742 | `NOT ENFORCED` exactly for code `N`, `ENFORCED` otherwise |
| DdlObjects.TrustedClause | DBParser/DBParser.py:743-745 | `TRUSTED` exactly for a constraint that is not enforced and is trusted |
| DdlObjects.OptimizationClause | DBParser/DBParser.py:746-748 | query optimisation enabled exactly for code `Y` |
| DdlObjects.UpdateRuleText | DBParser/DBParser.py:796-799 | `NO ACTION` exactly for `A`, `RESTRICT` otherwise |
| DdlObjects.DeleteRuleText | DBParser/DBParser.py:800-808 | `NO ACTION` for `A`, `CASCADE` for `C`, `SET NULL` for `N`, `RESTRICT` for any other code |
| DdlObjects.ConstraintBody | DBParser/DBParser.py:736-820 | the opening tells the kind: `CHECK ( ` exactly for a check, `FOREIGN KEY (` exactly for a foreign key; the check text reads back between `CHECK ( ` and ` )`; a candidate key opens with `UNIQUE` exactly for type `U` (`PRIMARY KEY` otherwise) and ends with its columns; a foreign key opens with its columns, the referenced table and the referenced columns, ends with ON UPDATE before ON DELETE, and ends with `ON DELETE SET NULL` exactly for rule `N` |
| DdlObjects.SetNullOnly | DBParser/DBParser.py:800-808 | among the delete rules only code `N` ends the text with `ON DELETE SET NULL` |
| DdlObjects.CandidateKind | DBParser/DBParser.py:761-764 | `UNIQUE` exactly for type `U`, `PRIMARY KEY` otherwise |
| DdlObjects.ConstraintDdl | DBParser/DBParser.py:736-820 | `ALTER TABLE … ADD CONSTRAINT` with the name; it ends with the trusted and optimisation clauses |
| DdlObjects.TriggerDdl | DBParser/DBParser.py:830-832 | the trigger text followed by the terminator |
| DdlObjects.DropBlankLinesSpec | DBParser/DBParser.py:165 | the cleaned text has no blank line, keeps the characters of the non-empty lines in order, and splits into exactly the non-empty lines of the input |
| DdlGraph.StrippedStep | DBParser/DBParser.py:130-135 | each fetched row adds its stripped (dependent, dependency) pair |
| DdlGraph.StoreKeys | DBParser/DBParser.py:148-158 | after the store loop, the keys are the old keys and every row's key |
| DdlGraph.StoreLast | DBParser/DBParser.py:148-158 | the entry under a key comes from the last row with that key |
| DdlGraph.StoreKeeps | DBParser/DBParser.py:148-168 | an entry that no row names keeps its value |
| DdlGraph.RecordSpec | DBParser/DBParser.py:148-168 | the dictionary's insertion order lists each key once, at its first store |
| DdlGraph.AttachKeys | DBParser/DBParser.py:170-182 | attaching column rows adds no entry and removes none |
| DdlGraph.AttachSpec | DBParser/DBParser.py:170-182 | every entry absorbs exactly the rows with its key, in row order |
| DdlGraph.Build | DBParser/DBParser.py:27-41 | building the graph fails exactly when an index-column row names an unknown index or the dependency order does not exist |
| DdlGraph.BuildFailsIffCyclic | DBParser/DBParser.py:127-146 | with the indexes loaded, building fails exactly when the dependency rows, self-dependencies dropped, hold a cycle |
| DdlGraph.AddColumnsInOrder | DBParser/DBParser.py:170-182 | a table's columns are appended in row order |
| DdlGraph.TableColumnsLoaded | DBParser/DBParser.py:148-182 | a table that no view replaces holds the last table row under its key and, in order, every column row with its key |
| DdlGraph.EmitNode | DBParser/DBParser.py:44-109 | one node's text fails exactly on a fatal node; `DUMMIE` and a missing table, routine or constraint add nothing |
| DdlGraph.EmitNodesFails | DBParser/DBParser.py:44-109 | the emission pass fails exactly when some ordered node is fatal: an unknown or column-less index, an unknown trigger, a column-less table, or an unknown kind letter |
| DdlGraph.EmitNodesStops | DBParser/DBParser.py:64-109 | once the pass has stopped, later nodes change nothing |
| DdlGraph.WithoutDummie | DBParser/DBParser.py:48-50 | the placeholder nodes and only those are removed |
| DdlGraph.DummieIgnored | DBParser/DBParser.py:48-50 | removing the `DUMMIE` nodes does not change what the pass emits |
| DdlGraph.RestartLine | DBParser/DBParser.py:111-123 | a restart statement exactly for a table, never a view, with an identity column; it names the first identity column and the supplied next value |
| DdlGraph.BuildLoaded | DBParser/DBParser.py:27-41 | the loaders' results from empty dictionaries are what the constructor builds |
| DdlGraph.StoreRows | DBParser/DBParser.py:148-158 | the fetch loop that stores each row computes the store fold |
| DdlGraph.AttachRows | DBParser/DBParser.py:170-182 | the fetch loop that hands each row to its entry computes the attach fold |
| DdlGraph.DBGraph.constructor | DBParser/DBParser.py:27-41 | a new graph has empty dictionaries |
| DdlGraph.DBGraph.ReadTables | DBParser/DBParser.py:148-168 | the table, column and view rows update the table dictionary and its insertion order |
| DdlGraph.DBGraph.ReadColumns | DBParser/DBParser.py:170-182 | each column row is added to the table under its key |
| DdlGraph.DBGraph.ReadIndexes | DBParser/DBParser.py:184-192 | indexes load, and loading fails exactly when an index-column row names an unknown index |
| DdlGraph.DBGraph.ReadIndexColumns | DBParser/DBParser.py:194-202 | succeeds exactly when every row names a loaded index, and then attaches the rows in order |
| DdlGraph.DBGraph.ReadRoutines | DBParser/DBParser.py:247-286 | routines and external routine parameters load into the routine dictionary |
| DdlGraph.DBGraph.ReadConstraints | DBParser/DBParser.py:204-234 | checks, candidate keys and foreign keys load into the constraint dictionary |
| DdlGraph.DBGraph.ReadTriggers | DBParser/DBParser.py:236-245 | triggers load into the trigger dictionary |
| DdlGraph.DBGraph.ReadEdges | DBParser/DBParser.py:127-146 | the edge map is the merge of the stripped pairs; ordering succeeds exactly when the dependency order exists, which is exactly when the stripped rows hold no cycle |
| DdlGraph.DBGraph.Load | DBParser/DBParser.py:27-41 | loading succeeds exactly when the graph can be built, and then the state is that graph |
| DdlGraph.DBGraph.ReadRelations | DBParser/DBParser.py:36-37 | the table and index loaders from empty dictionaries |
| DdlGraph.DBGraph.ReadProgramObjects | DBParser/DBParser.py:38-40 | the routine, constraint and trigger loaders from empty dictionaries |
| DdlGraph.DBGraph.EmitOne | DBParser/DBParser.py:44-109 | one iteration of the emission loop computes the node's text |
| DdlGraph.DBGraph.Restarts | DBParser/DBParser.py:111-123 | the restart loop visits tables in dictionary insertion order |
| DdlGraph.DBGraph.ToText | DBParser/DBParser.py:43-125 | `__str__` is the ordered nodes' texts followed by the restarts, or the first failure |
| TopoSort.ReadyOf | DBParser/DBParser.py:146 | the nodes placed in a round are exactly the pending nodes whose dependencies are placed |
| TopoSort.Waiting | DBParser/DBParser.py:146 | the waiting nodes are the other pending nodes, and a round splits the pending nodes without loss |
| TopoSort.RoundsSound | DBParser/DBParser.py:146 | the rounds place a permutation of the nodes, each after its dependencies |
| TopoSort.DepsFirstAppend | DBParser/DBParser.py:146 | a round of ready nodes followed by an order that relies on them is dependency-first |
| TopoSort.OrderSound | DBParser/DBParser.py:146 | an ordering lists exactly the given nodes and puts each dependency first |
| TopoSort.DependencyFirstListed | DBParser/DBParser.py:146 | a node's dependency is listed before the node |
| TopoSort.RoundsStuck | DBParser/DBParser.py:146 | when the rounds fail, some non-empty set of pending nodes has every member waiting on another member |
| TopoSort.StuckBlocks | DBParser/DBParser.py:146 | a non-empty set of unplaced nodes each waiting on another makes the rounds fail |
| TopoSort.OrderFailsIffStuck | DBParser/DBParser.py:146 | the ordering fails exactly when some listed nodes all wait on one another |
| TopoSort.CycleRejected | DBParser/DBParser.py:146 | a cycle of any length, each node depending on the next and the last on the first, leaves the nodes without an ordering |
| TopoSort.MergeEdgesSpec | DBParser/DBParser.py:131-144 | the edge map sends each dependent to exactly the dependencies it appears with |
| TopoSort.MergeEdgesOrderFree | DBParser/DBParser.py:131-144 | the edge map depends only on the set of pairs, so duplicates and row order do not matter |
| TopoSort.MergeEdgesStep | DBParser/DBParser.py:136-144 | one more row adds its dependency to its dependent's set, creating the set when it is missing |
| TopoSort.MergeEdgesHas | DBParser/DBParser.py:136-144 | every row's pair is an edge of the map |
| TopoSort.NodesOfSpec | DBParser/DBParser.py:131-146 | every node of the edge map is listed, once |
| TopoSort.AddNewDistinct | DBParser/DBParser.py:131-146 | adding a new node keeps the node list without repetitions |
| TopoSort.OrderedNodesSound | DBParser/DBParser.py:146 | the ordering lists every node of the edge rows |
| TopoSort.OrderedDepsFirst | DBParser/DBParser.py:146 | in the ordering, every dependency of an edge row comes before its dependent |
| TopoSort.StuckIffCycle | DBParser/DBParser.py:131-146 | a set of nodes waits on itself under the edge map exactly when the rows link each of its nodes to another of them |
| TopoSort.NodesClosed | DBParser/DBParser.py:131-146 | every dependency of a listed node, and every node of a cycle, is a listed node |
| TopoSort.OrderedNodesFailsIffCyclic | DBParser/DBParser.py:146 | the ordering of the rows fails exactly when the rows hold a cycle between distinct nodes |
| Grouping.Groups | CompareDB/DB.py:90-114 | the runs are non-empty, no more than the rows, and empty exactly for no rows |
| Grouping.GroupsFlatten | CompareDB/DB.py:90-114 | the runs put back together are the rows |
| Grouping.GroupsStarts | CompareDB/DB.py:95-104 | every run after the first starts at an opening row and no later row of a run opens one |
| Grouping.GroupsStep | CompareDB/DB.py:95-109 | one more row either opens a new run or joins the last run |
| CompareDb.PositionsDomain | CompareDB/DB.py:96-114 | a key is in the table dictionary exactly when some loaded table has it |
| CompareDb.PositionsLast | CompareDB/DB.py:96-114 | the dictionary finds a table with the key and no later table has that key |
| CompareDb.PositionsKeys | CompareDB/DB.py:96-114 | the dictionary depends only on the tables' keys |
| CompareDb.ColumnsOf | CompareDB/DB.py:106-109 | one column per row, in row order |
| CompareDb.TablesFrom | CompareDB/DB.py:90-114 | one table per run, built from that run |
| CompareDb.ScanTablesOk | CompareDB/DB.py:90-114 | the table loop fails exactly when the first row does not open a table |
| CompareDb.ScanTablesRuns | CompareDB/DB.py:90-109 | the loop stores the tables of all runs but the last and holds the last as current |
| CompareDb.TablesGrouped | CompareDB/DB.py:59-114 | loading succeeds exactly when there are no rows or the first has column number 0, and then yields one table per run with the run's columns in row order |
| CompareDb.KeyColumnName | CompareDB/DB.py:152-156 | a descending key column is written with ` DESC`, an ascending one bare |
| CompareDb.ScanIndexes | CompareDB/DB.py:143-170 | the index loop keeps the table list's length and keys and changes only the tables' indexes |
| CompareDb.KeyColumnsOf | CompareDB/DB.py:161-170 | the key columns of a run, in order |
| CompareDb.IncludesOf | CompareDB/DB.py:161-170 | the included columns of a run, in order |
| CompareDb.IndexFromSpec | CompareDB/DB.py:149-170 | an index holds its first row's attributes, all its ascending and descending columns as keys and the other later columns as includes |
| CompareDb.AttachIndexes | CompareDB/DB.py:149-159 | attaching the runs' indexes keeps the table list's length |
| CompareDb.ScanIndexesRuns | CompareDB/DB.py:143-170 | a loop that starts with an opening row succeeds exactly when each run's table is loaded, and then holds the attached indexes |
| CompareDb.ScanIndexesStray | CompareDB/DB.py:161-170 | a first row that opens no index fails, since there is no current index |
| CompareDb.IndexesGrouped | CompareDB/DB.py:116-170 | index loading succeeds exactly when the first row opens an index and every index's table is loaded, and each index goes to its table once, when its first row arrives |
| CompareDb.ScanIndexesFailFinal | CompareDB/DB.py:143-170 | once the index loop fails, later rows do not matter |
| CompareDb.Flush | CompareDB/DB.py:195-197 | storing the pending key keeps the table list's length |
| CompareDb.ScanKeys | CompareDB/DB.py:192-206 | a key loop keeps the table list's length and keys and changes only the tables' constraints |
| CompareDb.LoadKeys | CompareDB/DB.py:192-206 | the whole key loop with its `else` flush keeps the tables other than their constraints |
| CompareDb.AttachKeys | CompareDB/DB.py:192-206 | attaching the runs' keys keeps the table list's length |
| CompareDb.ScanKeysRuns | CompareDB/DB.py:192-206 | a key loop that starts with an opening row succeeds exactly when each key's table is loaded, and then holds every finished key in its table and the last one pending |
| CompareDb.ScanKeysStray | CompareDB/DB.py:192-206 | a first row that opens no key fails |
| CompareDb.KeysGrouped | CompareDB/DB.py:192-264 | key loading succeeds exactly when the first row opens a key and every key's table is loaded, and each key is added to its table exactly once |
| CompareDb.ScanKeysFailFinal | CompareDB/DB.py:192-264 | once a key loop fails, later rows do not matter |
| CompareDb.CandidateColumns | CompareDB/DB.py:203 | one column per row, in order |
| CompareDb.CandidateKeyColumns | CompareDB/DB.py:195-203 | a candidate key holds its first row's attributes and every row's column in order |
| CompareDb.ForeignColumns | CompareDB/DB.py:260 | the key columns, one per row, in order |
| CompareDb.ReferencedColumns | CompareDB/DB.py:261 | the referenced columns, one per row, in order |
| CompareDb.ForeignKeyColumns | CompareDB/DB.py:254-261 | a foreign key holds its columns and referenced columns in row order, so the two lists have equal length |
| CompareDb.LoadChecks | CompareDB/DB.py:284-291 | the check loop keeps the tables other than their constraints |
| CompareDb.ChecksPerTable | CompareDB/DB.py:266-291 | loading checks succeeds exactly when every check not of type `S` names a loaded table, and each table gains exactly its checks in row order |
| CompareDb.LoadChecksFailFinal | CompareDB/DB.py:284-291 | once the check loop fails, later rows do not matter |
| CompareDb.PositionsInRange | CompareDB/DB.py:96-114 | every position in the dictionary is a position of the table list |
| CompareDb.LoadConstraints | CompareDB/DB.py:293-296 | candidate keys, then foreign keys, then checks, keeping the tables other than their constraints |
| CompareDb.BuildKeepsTables | CompareDB/DB.py:17-33 | a built snapshot holds the loaded tables, changed only in their indexes and constraints |
| CompareDb.TablesIn | CompareDB/DB.py:309-310 | exactly the tables of the schema, in load order |
| CompareDb.TablesInAppend | CompareDB/DB.py:309-310 | selecting from two lists in turn selects from their concatenation |
| CompareDb.Schemas | CompareDB/DB.py:312-313 | a schema is listed exactly when it has a table |
| CompareDb.RenderAll | CompareDB/DB.py:298-301 | the texts of all tables in order, failing exactly when one of them fails |
| CompareDb.ParagraphsSnoc | CompareDB/DB.py:298-301 | one more table adds a blank line and its text |
| CompareDb.DB.constructor | CompareDB/DB.py:17-33 | a new snapshot has no tables |
| CompareDb.DB.Store | CompareDB/DB.py:98-101 | a table is listed and stored under its key |
| CompareDb.DB.Update | CompareDB/DB.py:149-159 | changing a stored table keeps its key and the dictionary |
| CompareDb.DB.ReadTables | CompareDB/DB.py:59-114 | the table loop computes the tables of the specification, or fails when it does |
| CompareDb.DB.ReadIndexes | CompareDB/DB.py:116-170 | the index loop computes the index scan of the specification |
| CompareDb.DB.ReadKeys | CompareDB/DB.py:172-264 | the candidate-key and foreign-key loops compute the key loads of the specification |
| CompareDb.DB.ReadChecks | CompareDB/DB.py:266-291 | the check loop computes the check load of the specification |
| CompareDb.DB.ReadConstraints | CompareDB/DB.py:293-296 | the three constraint loops in order |
| CompareDb.DB.Load | CompareDB/DB.py:17-33 | loading succeeds exactly when the snapshot can be built, and then holds its tables |
| CompareDb.DB.GetTable | CompareDB/DB.py:303-304 | found exactly when some table has the key, and then it is the last such table |
| CompareObjects.AddIndexColumn | CompareDB/DBIndex.py:34-35 | the key column is appended and nothing else changes |
| CompareObjects.AddInclude | CompareDB/DBIndex.py:37-38 | the include column is appended and nothing else changes |
| CompareObjects.UniqueWord | CompareDB/DBIndex.py:42-43 | `UNIQUE ` exactly for unique rules `P` and `U` |
| CompareObjects.KeyColumnsClause | CompareDB/DBIndex.py:45-49 | key columns joined by `, ` in insertion order, with `INCLUDE (...)` exactly when the include list is non-empty |
| CompareObjects.OctetsClause | CompareDB/DBIndex.py:53-56 | `(length OCTETS)` exactly for CHARACTER and VARCHAR pattern types |
| CompareObjects.InvalidValuesClause | CompareDB/DBIndex.py:57-60 | `REJECT INVALID VALUES` exactly for type model `R`, `IGNORE` otherwise |
| CompareObjects.XmlPatternClause | CompareDB/DBIndex.py:51-61 | the XML pattern clause is present exactly for `XVIL` indexes |
| CompareObjects.IndexCompressFlag | CompareDB/DBIndex.py:63-66 | `COMPRESS YES` exactly for `Y`, `COMPRESS NO` otherwise |
| CompareObjects.NullKeysFlag | CompareDB/DBIndex.py:68-69 | `EXCLUDE NULL KEYS` exactly for `N` |
| CompareObjects.ClusterFlag | CompareDB/DBIndex.py:71-72 | `CLUSTER` exactly for index type `CLUS` |
| CompareObjects.ReverseScansFlag | CompareDB/DBIndex.py:74-75 | `ALLOW REVERSE SCANS` exactly for `Y` |
| CompareObjects.StatisticsClause | CompareDB/DBIndex.py:77-83 | `D`, `S` and `Y` map to the three COLLECT clauses and any other code to none |
| CompareObjects.IndexFlags | CompareDB/DBIndex.py:63-83 | the block starts with the compression line and ends with the statistics clause; split at line breaks it gives exactly `IndexOptionLines` |
| CompareObjects.IndexOptionLines | CompareDB/DBIndex.py:63-82 | the first line is COMPRESS YES exactly for `Y` (COMPRESS NO otherwise); EXCLUDE NULL KEYS is a line exactly for `N`, CLUSTER exactly for `CLUS`, ALLOW REVERSE SCANS exactly for `Y` |
| CompareObjects.IndexComment | CompareDB/DBIndex.py:85-86 | exactly when there is a comment, a statement that opens with `COMMENT ON INDEX schema.name IS` and ends with the quoted comment and ` @` |
| CompareObjects.IndexHeadRest | CompareDB/DBIndex.py:42-49 | `INDEX schema.name ON schema.table` followed by the key column clause |
| CompareObjects.IndexHead | CompareDB/DBIndex.py:42-49 | `CREATE` and the uniqueness word lead, with `CREATE UNIQUE` exactly for rules `P` and `U` and `CREATE INDEX` otherwise; it ends with the index and table names and the key column clause |
| CompareObjects.IndexBody | CompareDB/DBIndex.py:51-84 | the XML pattern clause comes first and the option lines, closed by ` @`, last |
| CompareObjects.IndexText | CompareDB/DBIndex.py:40-88 | the head, the XML pattern clause, the option lines and ` @` come first, and the comment statement ends the text; `CREATE UNIQUE` exactly for rules `P` and `U`; without a comment the text ends in the options and ` @` |
| CompareObjects.EnforcedText | CompareDB/DBConstraint.py:16-19 | `NOT ENFORCED` for `N`, `ENFORCED` for `Y`, and unset for any other code |
| CompareObjects.QueryOptText | CompareDB/DBConstraint.py:21-24 | `DISABLE` for `N`, `ENABLE` for `Y`, and unset for any other code |
| CompareObjects.DeleteRuleText | CompareDB/DBConstraint.py:56-63 | `NO ACTION` for `A`, `CASCADE` for `C`, `SET NULL` for `N`, `RESTRICT` for any other code |
| CompareObjects.UpdateRuleText | CompareDB/DBConstraint.py:65-68 | `NO ACTION` for `A`, `RESTRICT` for any other code |
| CompareObjects.NewCandidateKey | CompareDB/DBConstraint.py:8-24 | a new candidate key has no columns and translated flags |
| CompareObjects.NewForeignKey | CompareDB/DBConstraint.py:46-81 | a new foreign key has no columns and translated rules and flags |
| CompareObjects.NewCheck | CompareDB/DBConstraint.py:107-122 | a new check keeps its text and translates its flags |
| CompareObjects.AddKeyColumn | CompareDB/DBConstraint.py:26-27 | the column is appended and nothing else changes |
| CompareObjects.AddColumnPair | CompareDB/DBConstraint.py:83-87 | a column and its referenced column are appended together |
| CompareObjects.CandidateClause | CompareDB/DBConstraint.py:30-35 | `UNIQUE` exactly for type `U`, `PRIMARY KEY` otherwise, with the columns joined by `, ` |
| CompareObjects.ForeignClause | CompareDB/DBConstraint.py:90-97 | the key columns, the referenced table and columns, then `ON DELETE` before `ON UPDATE` |
| CompareObjects.ConstraintComment | CompareDB/DBConstraint.py:39-40 | exactly when there is a comment, a statement that opens with `COMMENT ON CONSTRAINT schema.table.name IS` and ends with the quoted comment and ` @` |
| CompareObjects.ConstraintText | CompareDB/DBConstraint.py:89-104 | rendering fails exactly when enforcement or optimisation is unset; otherwise the header and clause come first, followed by the enforcement line and the optimisation line with ` @`, and the comment statement ends the text |
| CompareObjects.CompressText | CompareDB/DBTable.py:17-25 | `COMPRESS YES ADAPTIVE` exactly for `R` with row mode `A`, `STATIC` for `R` otherwise, `COMPRESS NO` for other codes |
| CompareObjects.OrganizeText | CompareDB/DBTable.py:29-33 | `BY ROW` for `R`, `BY COLUMN` for `C`, the bare `ORGANIZE BY ` otherwise |
| CompareObjects.NewTable | CompareDB/DBTable.py:9-39 | a new table has no columns, indexes or constraints and translated codes |
| CompareObjects.AddTableColumn | CompareDB/DBTable.py:48-49 | the column is appended and nothing else changes |
| CompareObjects.AddIndex | CompareDB/DBTable.py:51-52 | the index is appended and nothing else changes |
| CompareObjects.AddConstraint | CompareDB/DBTable.py:54-55 | the constraint is appended and nothing else changes |
| CompareObjects.ParentsSpec | CompareDB/DBTable.py:57-59 | a name is a parent exactly when some foreign key of the table refers to it |
| CompareObjects.ParentsAppend | CompareDB/DBTable.py:57-59 | adding a constraint keeps the parents in order and adds the new one's referenced table when it is a foreign key |
| CompareObjects.ChildrenSpec | CompareDB/DBTable.py:61-63 | a name is a child exactly when it names a table of the snapshot that has this table among its parents |
| CompareObjects.ChildOfParent | CompareDB/DBTable.py:57-63 | a table whose parents include `p` is among `p`'s children |
| CompareObjects.SpaceText | CompareDB/DBTable.py:73-77 | `IN` the table space, with `INDEX IN` and `LONG IN` only when given and non-empty |
| CompareObjects.ColumnTexts | CompareDB/DBTable.py:71-72 | the column texts in column order |
| CompareObjects.IndexTexts | CompareDB/DBTable.py:82-83 | the index texts in index order |
| CompareObjects.ConstraintTexts | CompareDB/DBTable.py:85-86 | the constraint texts in order, failing exactly when one constraint cannot be rendered |
| CompareObjects.ColumnComments | CompareDB/DBTable.py:91-94 | a comment statement for each column with a comment, and none for the others |
| CompareObjects.TableComment | CompareDB/DBTable.py:88-89 | exactly when there is a comment, a statement that opens with `COMMENT ON TABLE schema.table IS` and ends with the quoted comment and ` @` |
| CompareObjects.TableText | CompareDB/DBTable.py:65-97 | the table text fails exactly when a constraint cannot be rendered; otherwise it starts with the head and columns, the indexes and the constraints, and ends with the table comment, a line break, the column comments and a blank line |
| RecreateFk.RuleKeywordAsWritten | print_recreate_fk.py:19-26 | the query as written maps `C` to CASCADE, `R` to RESTRICT and every other code to NO ACTION |
| RecreateFk.SetNullLost | print_recreate_fk.py:19-44 | as written, a key with rule `N` prints the same create statement as the same key with rule `A`, for the delete and for the update rule |
| RecreateFk.RuleKeyword | print_recreate_fk.py:19-26 | the corrected mapping gives SET NULL for `N` and otherwise agrees with the query |
| RecreateFk.RuleKeywordInjective | print_recreate_fk.py:19-26 | distinct catalog rule codes get distinct keywords, so a recreated key keeps its rule |
| RecreateFk.CorrectedCreateInjective | print_recreate_fk.py:19-44 | with the corrected CASE, two keys that differ only in their rule codes get the same create statement exactly when the codes agree |
| RecreateFk.CorrectionOnlyForSetNull | print_recreate_fk.py:19-44 | the printed create statement equals the corrected one exactly when neither rule code is `N` |
| RecreateFk.EnforcedPrefix | print_recreate_fk.py:100-103 | `NOT ` exactly for code `N` |
| RecreateFk.QueryOptPrefix | print_recreate_fk.py:104-108 | `DISABLE ` exactly for code `N`, `ENABLE ` otherwise |
| RecreateFk.NormalizeCols | print_recreate_fk.py:109-119 | the split, filter and comma loop compute the normalised column list |
| RecreateFk.ColumnListSpec | print_recreate_fk.py:109-119 | the list has no space, is empty exactly for an all-blank input, and for an input without commas splits at its commas into exactly the blank-separated names of the input, in order |
| RecreateFk.TokenChars | print_recreate_fk.py:109-119 | every character of a name appears in the joined names |
| RecreateFk.BlankRemoved | print_recreate_fk.py:109-119 | removing separators leaves nothing exactly when the input held only separators |
| RecreateFk.DropCreatePair | print_recreate_fk.py:36-46 | the drop and the create name the same table and constraint; the create continues with `FOREIGN KEY` over the normalised key columns and `REFERENCES` the parent table over its normalised columns, then `ON UPDATE` and `ON DELETE` and the two rule words, then `ENFORCED` with its `NOT ` prefix and `QUERY OPTIMIZATION` with its `ENABLE `/`DISABLE ` prefix, then the terminator |
| RecreateFk.RowStatements | print_recreate_fk.py:97-127 | the drop statement and, with the rule words of the CASE as written, the create statement of the row |
| RecreateFk.TableStatements | print_recreate_fk.py:88-129 | the drops and creates gathered so far are followed by those of the table's rows, in row order |
| RecreateFk.CollectStatements | print_recreate_fk.py:85-129 | the drops and creates of every row of every named table, tables in the given order |
| RecreateFk.Script | print_recreate_fk.py:85-136 | the printed lines are the drop statements of all rows, then their create statements as written |
| RecreateFk.CorrectedScriptAgrees | print_recreate_fk.py:19-26 | the printed script equals the corrected script exactly when no row has rule code `N` |
| RecreateFk.Lines | print_recreate_fk.py:132-136 | printing a list adds its lines after the output so far |
| RecreateFk.ScriptOrder | print_recreate_fk.py:132-136 | every drop is printed before any create, and the statements of row `i` sit at positions `i` and `n + i` |
| RecreateFk.TwoPasses | print_recreate_fk.py:132-136 | two passes over the rows place the first texts before the second ones, each in row order |
| RecreateFk.RowsOfAppend | print_recreate_fk.py:85-129 | naming more tables adds their keys after those of the earlier tables |
| DbMove.ReferencesOf | DBParser/DBMove.py:48-59 | the references that start at a table, and only those |
| DbMove.EdgeRowsSpec | DBParser/DBMove.py:48-59 | the edge query pairs a listed table with each table it refers to, or with `dummy` when it refers to none |
| DbMove.EdgeMapOfTables | DBParser/DBMove.py:71-83 | the edge map sends every listed table, and nothing else, to its referenced tables, or to `{dummy}` |
| DbMove.ReadEdges | DBParser/DBMove.py:71-83 | the fetch loop computes the merged edge map and the node list |
| DbMove.Tables | DBParser/DBMove.py:112-114 | the tables are no more than the nodes |
| DbMove.TablesSpec | DBParser/DBMove.py:112-114 | `dummy` is dropped, every other node kept, and their order is unchanged |
| DbMove.LoadModifier | DBParser/DBMove.py:116-118 | `identityoverride` unless the table is in the identity-skip list, and `" "` then |
| DbMove.LinesPerTable | DBParser/DBMove.py:112-120 | every table of the order gets one export line and one load line, in that order |
| DbMove.ScriptFrames | DBParser/DBMove.py:102-132 | both scripts start with `connect to` and end with `connect reset;` |
| DbMove.PreludeIffTypeN | DBParser/DBMove.py:104-110 | the integrity prelude follows the connect line exactly when the database type is `N` |
| DbMove.LoadLinesStart | DBParser/DBMove.py:120 | every load line starts with the load command |
| DbMove.TableLines | DBParser/DBMove.py:115-120 | a table's loop body writes its export and load lines |
| DbMove.WriteTables | DBParser/DBMove.py:112-120 | the writing loop appends the export and load lines of every table in order |
| DbMove.WriteScripts | DBParser/DBMove.py:102-132 | the two files are the connect line, prelude, loop, postlude and reset, in order |
| DbMove.LoadScriptParts | DBParser/DBMove.py:102-132 | the load script is its parts written one after the other, with prelude and postlude only for type `N` |
| DbMove.Upper | DBParser/DBMove.py:40-41 | upper-casing keeps the length and maps each character to its upper-case ASCII letter, leaving every other character as it is |
| DbMove.UpperSpec | DBParser/DBMove.py:40-41 | no lower-case ASCII letter is left, and upper-casing twice changes nothing more |
| DbMove.Move | DBParser/DBMove.py:40-132 | the scripts exist exactly when the dependency order exists, that is exactly when the rows hold no cycle, and then are the export and load scripts of that order with upper-cased database names |
| DbMove.MoveOrder | DBParser/DBMove.py:71-120 | a table's export and load lines come after those of every other table it refers to |
| IndexAdvisor.FixQuery | IndexAdvisor/index_advisor.py:21-25 | succeeds exactly for a query that is not blank; the result is the stripped query, without its last character exactly when that is `;` |
| IndexAdvisor.FixQueryTerminated | IndexAdvisor/index_advisor.py:21-25 | a query ending in `;` is sent without it, left-stripped |
| IndexAdvisor.Prefixing | IndexAdvisor/index_advisor.py:29-31 | each selection with the element in front |
| IndexAdvisor.CombinationsShape | IndexAdvisor/index_advisor.py:29-31 | every selection of size `r` is a subsequence of the input with `r` elements |
| IndexAdvisor.CombinationsComplete | IndexAdvisor/index_advisor.py:29-31 | every subsequence of the input is among the selections of its size |
| IndexAdvisor.CombinationsCount | IndexAdvisor/index_advisor.py:29-31 | there are `C(n, r)` selections of size `r` |
| IndexAdvisor.SumBinomAll | IndexAdvisor/index_advisor.py:29-31 | the selection counts of all sizes add up to 2^n |
| IndexAdvisor.PowerSetUpToCount | IndexAdvisor/index_advisor.py:29-31 | the selections up to size `m` number the sum of the binomials up to `m` |
| IndexAdvisor.PowerSetSpec | IndexAdvisor/index_advisor.py:29-31 | the power set has 2^n members, the empty one first; each is a subsequence of the input, every subsequence is listed, and sizes never decrease |
| IndexAdvisor.PowerSetUpToHas | IndexAdvisor/index_advisor.py:29-31 | a selection of size at most `m` is among the selections up to `m` |
| IndexAdvisor.SubsequenceDistinct | IndexAdvisor/index_advisor.py:168-171 | a subset of a set's elements repeats none of them |
| IndexAdvisor.DistinctCard | IndexAdvisor/index_advisor.py:181-182 | a list without repetitions has as many distinct elements as entries |
| IndexAdvisor.Outside | IndexAdvisor/index_advisor.py:192-193 | the disabled indexes are exactly the suggested ones not in the combination |
| IndexAdvisor.IndsSpec | IndexAdvisor/index_advisor.py:199 | the recorded list is empty for the empty combination and otherwise a comma before each name, so its length is the names' lengths plus their number |
| IndexAdvisor.EvaluationsSound | IndexAdvisor/index_advisor.py:179-200 | every evaluation carries the 1-based number of a combination that fits the size bounds, with its enable, disable and record |
| IndexAdvisor.EvaluationsIncreasing | IndexAdvisor/index_advisor.py:179-183 | the counter advances for every combination, skipped or not, so the numbers increase |
| IndexAdvisor.EvaluationsComplete | IndexAdvisor/index_advisor.py:179-183 | no combination within the size bounds is skipped |
| IndexAdvisor.FitsBySize | IndexAdvisor/index_advisor.py:181-182 | over a set's elements, the size of `set(p)` is the length of `p` |
| IndexAdvisor.EnableAll | IndexAdvisor/index_advisor.py:188-189 | exactly the combination's indexes are enabled, in order |
| IndexAdvisor.DisableOthers | IndexAdvisor/index_advisor.py:192-193 | the disable loop computes the suggested indexes outside the combination |
| IndexAdvisor.JoinInds | IndexAdvisor/index_advisor.py:199 | the fold computes the recorded list |
| IndexAdvisor.EvaluateCombinations | IndexAdvisor/index_advisor.py:171-200 | the loop with its counter computes the evaluations of the power set |
| IndexAdvisor.RemoveOne | IndexAdvisor/index_advisor.py:203 | removing one name removes its length from the total |
| IndexAdvisor.DistinctWithin | IndexAdvisor/index_advisor.py:203 | distinct suggested names are no longer in total than all suggested names |
| IndexAdvisor.Advise | IndexAdvisor/index_advisor.py:161-203 | the evaluations of the suggested set and `max_len`, with every recorded list fitting in `max_len` |
| IndexAdvisor.EvaluationsFit | IndexAdvisor/index_advisor.py:199-203 | no recorded list is longer than `max_len` |
| Text.StripSpec | IndexAdvisor/index_advisor.py:22 | `strip` removes whitespace from both ends and keeps a middle that neither starts nor ends with whitespace |
| Text.StripIdempotent | IndexAdvisor/index_advisor.py:22 | stripping twice changes nothing more |
| Text.NatToStringRoundTrip | DBParser/DBParser.py:123 | the decimal text of a number reads back as that number |
| Text.TokensSpec | print_recreate_fk.py:109 | the pieces are non-empty, hold no separator, and together are the input without separators |
| Text.TokensSplit | print_recreate_fk.py:109 | a separator splits the text: the pieces of `a`, a separator and `b` are the pieces of `a` then those of `b` |
| Text.TokensWhole | print_recreate_fk.py:109 | a text without separators is one piece, or none when it is empty |
| Text.TokensOfJoin | print_recreate_fk.py:109-113 | non-empty pieces without separators joined by a separator split back into exactly those pieces |
| Text.JoinRemoveSeparator | print_recreate_fk.py:110-119 | deleting the separator from a join of pieces without it gives their concatenation |
| Text.JoinSeparatorIsolated | print_recreate_fk.py:110-119 | in a join of non-empty pieces, no two separators are adjacent and none is at either end |

## Left out

- Database access: every `ibm_db`/`ibm_db_dbi` call is left out. Each catalog query is an input sequence of rows. The `coalesce(max(col),0)+1` lookup in `DBGraph.__str__` is a supplied function.
- SQL evaluation: the queries' `rtrim`/`strip`, filters and `ORDER BY` are not modelled. The rows are taken as the query returns them, and padding is stripped where the Python code strips it.
- The topological sort is an external package whose source is not part of this model. `TopoSort` orders by its own rounds. It is proved to list every node once with dependencies first, and to fail exactly when the rows hold a cycle between distinct nodes. The source adds every row to the edge dictionary, a node's dependency on itself included. The model ignores such a dependency (`TopoSort.DepsOf`). It makes no claim about what the package does with self-dependencies, with cycles, or with ties.
- DBParser/DBQueries.py is SQL text only. It is where the `DUMMIE` placeholder rows come from.
- CompareDB/DBColumn.py is not part of this model. A comparer column is opaque: its name, its comment and its rendered text.
- `DB._read_views_` is never called and refers to a class it does not import, so it is not modelled.
- `DB.get_all_tables` is a copy of the table list and has no member of its own.
- CompareDb.Schemas: gives the set of schemas, not the order of `list(set(...))`, which Python does not fix.
- The index attributes that `DBIndex.__str__` never prints (page split, user defined, hashed) are left out.
- DDL regenerator attributes that are only truth-tested (compression, spaces, remarks) are strings, with `""` standing for `None`.
- The DECIMAL branch of `DBColumn.__str__` sits inside the CHARACTER/VARCHAR test and cannot run. The model renders what the code renders, so a DECIMAL column shows no precision or scale (see `DdlObjects.ColumnLengthShown`).
- Errors that the source prints and skips (a missing table, routine or constraint in `__str__`) add nothing to the text. Errors that exit or raise are `Failure` results. The printed messages are not modelled.
- CompareDb.RenderAll: a failure carries a fixed message, not the Python exception.
- DbMove.Upper: upper-cases ASCII letters only. Python's `upper()` also maps other Unicode letters.
- The identity-skip list of `DBMove` is an input, the rows of its query.
- Files, directories and consoles: `os.makedirs`, file writes and printing are not modelled. The two scripts of `DBMove` and the lines of the recreate script are returned as strings.
- `os.linesep` is `"\n"`.
- Set iteration order: the index advisor iterates over `set(indexes)` and `indset - sp`, whose order Python does not fix. `IndexAdvisor.Advise` takes that order as its `order` parameter. `Outside` keeps that order.
- The index advisor's stored-procedure calls, the optimizer's cost estimates, `tabulate` and `input()` are left out; the cost comparison happens in the optimizer.
- Command-line parsing (`getopt`, `argparse`) is left out, along with the drivers CompareDB/compare_db.py and CompareDB/compare_db_with_ddl.py (temporary directories, `filecmp`, `difflib`, `configparser`).
- The `__main__` demonstration blocks are left out. They call constructors with the wrong number of arguments.
- `DBNode.__eq__` reads an attribute that does not exist and is never used, so it is left out.
- `DBGraph.__str__` reads the module-level `g` rather than `self`. The model uses the graph itself, which is the same object when the script runs.

## Findings

| source | as written | input that shows it | evidently intended | confidence | as-written member | corrected member |
|---|---|---|---|---|---|---|
| print_recreate_fk.py:19-26 | the delete-rule and update-rule CASEs map `C` and `R` and send every other code to NO ACTION | a foreign key with delete rule `N` (SET NULL) is recreated with `ON DELETE NO ACTION` | `N` maps to SET NULL, as the regenerator and the comparer both map it | not executed | RecreateFk.SetNullLost | RecreateFk.CorrectedCreateInjective |
