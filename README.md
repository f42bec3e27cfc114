# dbt-dry-run, modelled in Dafny

dbt-dry-run checks a dbt project against BigQuery without building anything.
It reads the compiled manifest and refuses nodes that are not SQL. It then
schedules the runnable models and seeds into generations, each node after
all of its dependencies, and dry runs every node with the runner for its
resource type:

- tables and views are sent to the warehouse as dry-run queries, a view wrapped in `CREATE OR REPLACE VIEW`;
- incremental models are predicted from their query and reconciled with the existing target table by the `on_schema_change` handler (ignore, append new columns, sync all columns, fail), merge statements being checked by a second query;
- snapshots get the snapshot metadata columns and have their configuration validated;
- seeds get their schema from their CSV columns and `column_types`;
- sources are checked to exist, and an external source's schema is built from its documented columns;
- tests are dry run as queries.

Before a node's SQL is sent, every reference to an upstream node is
replaced by a literal `SELECT` of example values shaped like that node's
predicted schema. A node whose upstream node failed is not queried at all.
Each node's result (status, predicted table, exception) goes into a result
store. When a node asks for it, the result's columns are linted against the
node's documented columns. At the end, the reporter turns the results into
an exit code.

The Dafny modules follow the source files. There is one module per file,
and each is named after its file:

| module | models |
|---|---|
| `Schema` | `models/table.py` |
| `DryRunResults` | `models/dry_run_result.py` |
| `Manifest` | `models/manifest.py` |
| `ResultStore` | `results.py` |
| `Literals` | `literals.py` |
| `ColumnsMetadata` | `columns_metadata.py` |
| `Parsing` | `sql/parsing.py` |
| `Statements` | `sql/statements.py` |
| `Scheduler` | `scheduler.py` |
| `SchemaChangeHandlers` | `node_runner/schema_change_handlers.py` |
| `ModelRunner`, `IncrementalRunner`, `TableRunner`, `ViewRunner` | the model runners |
| `NodeTestRunner`, `SnapshotRunner`, `SeedRunner`, `SourceRunner` | the other runners |
| `NodeDispatch` | `node_dispatch.py` |
| `Execution` | `execution.py` |
| `ColumnLinting` | `linting/column_linting.py` |
| `ResultReporting` | `result_reporter.py` |

A few modules support the others:

- `Warehouse` models the abstract SQL runner as a class. It answers from fixed oracle functions and records, in a ghost log, every query and lookup it receives.
- `Exceptions` holds one error datatype for the exceptions.
- `Wrappers`, `Seqs` and `Strings` are generic helpers.

The code is modelled in its own form:

- Pure code is datatypes and functions, with lemmas.
- The loops are methods proved against those functions. These include the scheduler's filter and layering, the SQL preprocessor's fold, the seed runner's field loop, the result reporter and the generation loop of `dry_run_manifest`.
- State changed in place is a class with `modifies` clauses. This covers the result store, the scheduler's deep dependencies, the warehouse's call log and the global example-value switch.

## Model

| member | source | states |
|---|---|---|
| DryRunResults.NewResult | dbt_dry_run/models/dry_run_result.py:27-34 | a new result carries the given node, table, status and exception, with linting SKIPPED and no linting errors (the dataclass defaults) |
| DryRunResults.ReplaceTable | dbt_dry_run/models/dry_run_result.py:36-42 | `replace_table` keeps node, status and exception, sets the table, and resets linting to SKIPPED with no errors |
| DryRunResults.WithLintingErrors | dbt_dry_run/models/dry_run_result.py:44-56 | keeps node, table, status and exception; stores the errors; linting is FAILURE exactly when there is an error and SUCCESS exactly when there is none |
| DryRunResults.LintingIsReplaced | dbt_dry_run/models/dry_run_result.py:36-56 | replacing the table discards earlier linting, and a second `with_linting_errors` overrides the first |
| ResultStore.Results.constructor | dbt_dry_run/results.py:29-31 | a new store is empty |
| ResultStore.Results.AddResult | dbt_dry_run/results.py:33-35 | stores the result under the key, overwriting an earlier one, every other entry unchanged; a new key goes last in iteration order |
| ResultStore.Results.GetResult | dbt_dry_run/results.py:37-39 | the stored result, or a KeyError for a key with none |
| ResultStore.Results.Keys | dbt_dry_run/results.py:41-43 | exactly the keys that have a result |
| ResultStore.Results.Values | dbt_dry_run/results.py:45-47 | one value per key, in insertion order, as many as there are keys |
| Warehouse.SqlRunner.Query | dbt_dry_run/sql_runner/__init__.py:25-29 | `query` answers with the warehouse's status, table and exception for that statement, and records exactly one query call |
| Warehouse.SqlRunner.QueryWithBytes | dbt_dry_run/node_runner/view_runner.py:25-28 | the four-part `query` that the view runner (here) and the test runner (`node_test_runner.py:16-22`) unpack: the same answer plus the bytes processed, recording one query call |
| Warehouse.SqlRunner.GetNodeSchema | dbt_dry_run/sql_runner/__init__.py:21-23 | `get_node_schema` returns the warehouse's table for the node (or none) and records one schema call |
| Warehouse.SqlRunner.NodeExists | dbt_dry_run/sql_runner/__init__.py:17-19 | `node_exists` returns whether the warehouse has the node and records one existence call |
| NodeDispatch.KeyOf | dbt_dry_run/node_dispatch.py:33-34 | the runner key is the node's resource type and materialization |
| NodeDispatch.DispatchNode | dbt_dry_run/node_dispatch.py:37-46 | an unregistered key is a value error; otherwise the registered runner validates first and runs only without a validation result |
| NodeDispatch.RunnersKeys | dbt_dry_run/node_dispatch.py:22-30 | the registry has exactly the seven keys, a source keyed without a materialization |
| NodeDispatch.RunnerOfNode | dbt_dry_run/node_dispatch.py:22-34 | a source node gets the source runner exactly when it has no materialization; a model gets the incremental runner exactly when materialized incremental; a seed gets the seed runner exactly when materialized as seed; only five resource types have runners; an ephemeral model has none |
| NodeDispatch.UnknownKeyCallsNothing | dbt_dry_run/node_dispatch.py:39-42 | an unknown key raises a value error before any runner validates or runs |
| NodeDispatch.ValidationShortCircuits | dbt_dry_run/node_dispatch.py:43-45 | a validation result is returned whatever `run` would have returned |
| NodeDispatch.CompiledNodesRun | dbt_dry_run/node_dispatch.py:43-46 | a compiled node, a seed and a source always reach their runner's `run` |
| NodeDispatch.DispatchByType | dbt_dry_run/execution.py:40-48 | the runner is looked up by resource type alone; an unknown type is a value error; validation short-circuits `run` |
| NodeDispatch.DispatchersAgree | dbt_dry_run/execution.py:40-48 | where the type picks the same runner as the full key, both dispatchers return the same |
| NodeDispatch.ValidateNode | dbt_dry_run/test/node_runner/test_test_runner.py:59-96 | a node that was not compiled is FAILURE with a not-compiled exception, or SKIPPED without one under the skip flag; compiled nodes and seeds are never rejected (seeds per `seed_runner.py:46-47`); sources are taken to be exempt as well, an assumption |
| Manifest.BqLiteral | dbt_dry_run/models/manifest.py:43-45 | the literal is the three parts, each wrapped in backticks, joined by dots; it starts and ends with a backtick |
| Manifest.BqLiteralInjective | dbt_dry_run/models/manifest.py:43-45 | for parts without a backtick, two table references with the same literal are the same reference |
| Manifest.ParsePartitionBy | dbt_dry_run/models/manifest.py:48-57 | the data type is lower-cased before it is checked; parsing succeeds exactly when the lower-cased type is one of the four allowed, and keeps field, range and ingestion flag |
| Manifest.PartitionByCaseInsensitive | dbt_dry_run/models/manifest.py:54-57 | an upper-case `TIMESTAMP` parses as the `timestamp` partition type |
| Manifest.DefaultAlias | dbt_dry_run/models/manifest.py:128-131 | a non-empty alias is kept; a missing or empty one becomes the node's name |
| Manifest.TableRefOf | dbt_dry_run/models/manifest.py:133-143 | the reference has the node's database and schema, and its alias as name when the alias is non-empty, the node's name otherwise |
| Manifest.TableRefUsesDefaultAlias | dbt_dry_run/models/manifest.py:128-143 | after the alias default, the reference's name is the alias, which is non-empty, and is the configured alias when one was given |
| Manifest.MetaLookup | dbt_dry_run/models/manifest.py:60-64 | a metadata value is found exactly when the metadata exists, holds the key, and the value is not null |
| Manifest.CombinedMetadata | dbt_dry_run/models/manifest.py:148-152 | the config's metadata value wins when it is not null; otherwise the node's own; the result is never null |
| Manifest.IsExternalSource | dbt_dry_run/models/manifest.py:154-155 | true exactly for a source with an external configuration |
| Manifest.ShouldFullRefresh | dbt_dry_run/models/manifest.py:161-165 | the node's own full-refresh setting wins; without one the global flag decides |
| Manifest.IsTimeIngestionPartitioned | dbt_dry_run/models/manifest.py:167-172 | true exactly when the node has a partitioning whose time-ingestion flag is true |
| Manifest.AllNodes | dbt_dry_run/models/manifest.py:184-186 | the keys are those of the nodes and the sources; a source wins over a node with the same key |
| Schema.ParseFieldType | dbt_dry_run/models/table.py:17-48 | a type string is accepted exactly when it is the value of one of the field types (the nineteen of the enumeration and RANGE), and then gives that type |
| Schema.ParseFieldTypeValue | dbt_dry_run/models/table.py:17-36 | every field type parses back from its own value |
| Schema.ParseFieldMode | dbt_dry_run/models/table.py:11-14 | a mode string is accepted exactly when it is one of the three modes' values, and then gives that mode |
| Schema.FieldNames | dbt_dry_run/models/table.py:63-65 | a name is in the set exactly when some top-level field has it |
| Schema.CommonFieldNames | dbt_dry_run/node_runner/incremental_runner.py:35-36 | exactly the names that are top-level fields of both tables |
| Schema.ConvertField | dbt_dry_run/models/table.py:76-83 | a converted field keeps name and description, its type and mode print as the client's strings, and a missing mode stays missing; its sub-fields are the recursive conversion of its sub-schema, whose failure fails the field; an unknown type or mode is an error |
| Schema.ConvertList | dbt_dry_run/models/table.py:76-85 | a converted list has one field per column, each the conversion of its column in order; any column that fails fails the whole list |
| Schema.ConvertFields | dbt_dry_run/models/table.py:67-85 | a missing schema gives no fields; otherwise the list conversion, failing when it fails |
| Schema.MapFields | dbt_dry_run/models/table.py:67-85 | the loop, with its recursion into nested columns, computes exactly the conversion |
| Schema.ConvertListFailsAt | dbt_dry_run/models/table.py:76-85 | the first column that fails decides the error, whatever follows it |
| Schema.ConvertListPrefixErr | dbt_dry_run/models/table.py:76-85 | once a prefix of the columns fails, the whole list fails with the same error |
| SchemaChangeHandlers.NewColumns | dbt_dry_run/node_runner/schema_change_handlers.py:18-23 | the predicted fields whose names the target lacks, and only those; their names are the predicted names minus the target's |
| SchemaChangeHandlers.ExistingColumns | dbt_dry_run/node_runner/schema_change_handlers.py:33-44 | the target fields whose names are predicted, and only those; their names are the names the two tables share |
| SchemaChangeHandlers.IgnoreHandler | dbt_dry_run/node_runner/schema_change_handlers.py:8-9 | the result takes the target table and keeps node, status and exception |
| SchemaChangeHandlers.AppendNewColumnsHandler | dbt_dry_run/node_runner/schema_change_handlers.py:12-25 | without a predicted table nothing changes; otherwise the table is the target's fields followed by the new columns, and its names are the union of both tables' names |
| SchemaChangeHandlers.SyncAllColumnsHandler | dbt_dry_run/node_runner/schema_change_handlers.py:28-46 | without a predicted table nothing changes; otherwise the table is the kept target fields followed by the new columns, and its names are exactly the predicted names |
| SchemaChangeHandlers.FailHandler | dbt_dry_run/node_runner/schema_change_handlers.py:49-76 | without a predicted table nothing changes; a change in names is a FAILURE with no table and a schema-change exception naming the added and removed fields; otherwise the target table with status and exception kept and linting reset |
| SchemaChangeHandlers.ApplyHandler | dbt_dry_run/node_runner/schema_change_handlers.py:79-86 | each of the four settings selects its own handler |
| SchemaChangeHandlers.HandlersKeepStatus | dbt_dry_run/node_runner/schema_change_handlers.py:8-76 | every handler keeps the node; only the fail handler changes the status, and only to FAILURE |
| SchemaChangeHandlers.AppendIdempotent | dbt_dry_run/node_runner/schema_change_handlers.py:12-25 | appending new columns twice against the same target gives the same result as once |
| SchemaChangeHandlers.SyncIdempotent | dbt_dry_run/node_runner/schema_change_handlers.py:28-46 | syncing twice against the same target gives the same result as once |
| SchemaChangeHandlers.FailKeepsTarget | dbt_dry_run/node_runner/schema_change_handlers.py:49-76 | a SUCCESS out of the fail handler means the input succeeded, the names did not change, and the table is the target |
| SchemaChangeHandlers.AppendPreservesTargetOrder | dbt_dry_run/test/node_runner/test_incremental_runner.py:486-513 | appending to a target `col_2, col_1` from a prediction `col_1, col_2, col_3` gives `col_2, col_1, col_3` |
| SchemaChangeHandlers.SyncPreservesTargetOrder | dbt_dry_run/test/node_runner/test_incremental_runner.py:516-545 | syncing a target `col_1, col_2, col_3` with a prediction `col_3, col_2, col_4` gives the target's `col_2, col_3` then the predicted `col_4` |
| Statements.PartitionDefault | dbt_dry_run/sql/statements.py:10-15 | the default is `100` exactly for an `int64` partition; every other type gets a `CURRENT_...()` call |
| Statements.TimeDefaultNamesItsType | dbt_dry_run/sql/statements.py:10-15 | a time partition's default is `CURRENT_` followed by its type in upper case and `()` |
| Statements.MaxPartitionDeclaration | dbt_dry_run/sql/statements.py:76-79 | the declaration is exactly `declare _dbt_max_partition <type> default <type's default>;` |
| Statements.AddSqlHeader | dbt_dry_run/sql/statements.py:66-69 | a non-empty header is prepended on its own line; without one the statement is unchanged; the statement always ends the result |
| Statements.WrapAsView | dbt_dry_run/sql/statements.py:59-63 | the statement sits unchanged between the view prefix naming the reference and the closing parenthesis |
| Statements.ViewRoundTrip | dbt_dry_run/sql/statements.py:59-63 | the wrapped statement is recovered from the view definition |
| Statements.WrapAsViewInjective | dbt_dry_run/sql/statements.py:59-63 | different statements never give the same view definition |
| Statements.AliasRef | dbt_dry_run/node_runner/view_runner.py:10 | the view runners name the view by the node's alias, which is the node's table reference whenever the alias is non-empty |
| Statements.CreateOrReplaceView | dbt_dry_run/sql/statements.py:59-63 | `create_or_replace_view` starts with `CREATE OR REPLACE VIEW` and the node's literal, and the statement is recovered from it |
| Statements.CreateOrReplaceViewExample | dbt_dry_run/sql/statements.py:59-63 | for `my_db`.`my_schema`.`a` the statement is `CREATE OR REPLACE VIEW` with that literal, ` AS (`, a newline, the statement, a newline and `)` |
| Statements.AddDbtMaxPartitionDeclaration | dbt_dry_run/sql/statements.py:72-81 | a partitioned node whose compiled code mentions `_dbt_max_partition` gets the declaration on the line before; otherwise the statement is unchanged; the statement always ends the result |
| Statements.MaxPartitionIgnoresStatement | dbt_dry_run/sql/statements.py:75 | whether the declaration is added depends on the node's compiled code, never on the statement it is added to |
| Statements.ReplaceAll | dbt_dry_run/sql/statements.py:51-55 | no upstreams leave the statement as it is; one upstream is one substitution |
| Statements.ReplaceAllAppend | dbt_dry_run/sql/statements.py:51-55 | substituting a list of upstreams is substituting its first part and then its second |
| Statements.InsertLiteralsStep | dbt_dry_run/sql/statements.py:31-56 | a node without deep dependencies is a key error; the step raises exactly when the upstream checks do, with their error; otherwise each completed upstream is substituted in order |
| Statements.InsertLiteralsAgree | dbt_dry_run/sql/statements.py:31-48 | the step raises exactly when the literals module's own `insert_dependant_sql_literals` does, with the same error |
| Statements.InsertLiteralsWithoutTables | dbt_dry_run/sql/statements.py:49-56 | when every upstream that ran succeeded without a table, the statement is unchanged |
| Statements.InsertDependantSqlLiterals | dbt_dry_run/sql/statements.py:31-56 | the loop computes exactly the step |
| Statements.ApplyStep | dbt_dry_run/sql/statements.py:17 | only the literal step can raise; the header and declaration steps keep the statement at the end |
| Statements.Preprocess | dbt_dry_run/sql/statements.py:24-28 | no steps leave the compiled code as it is; without the literal step the preprocessing cannot raise |
| Statements.PreprocessAppend | dbt_dry_run/sql/statements.py:24-28 | running two lists of steps one after the other is running their concatenation |
| Statements.PreprocessRaisesLikeLiterals | dbt_dry_run/sql/statements.py:24-48 | a list starting with the literal step, and with no other, raises exactly when the upstream checks do, with their error |
| Statements.RunStep | dbt_dry_run/sql/statements.py:26-27 | running one step gives that step's result |
| Statements.SqlPreprocessor.constructor | dbt_dry_run/sql/statements.py:21-22 | the preprocessor keeps the given steps |
| Statements.SqlPreprocessor.Call | dbt_dry_run/sql/statements.py:24-28 | the loop over the steps computes exactly the preprocessing of the compiled code |
| Parsing.SqlHasRecursiveCtes | dbt_dry_run/sql/parsing.py:7-12 | true exactly when, among the lower-cased whitespace-separated tokens, some `with` is immediately followed by `recursive`; never with fewer than two tokens |
| Parsing.CodeTokensAtSpace | dbt_dry_run/sql/parsing.py:8 | splitting at a run of whitespace gives the tokens before it followed by the tokens after it |
| Parsing.WhitespaceInsensitive | dbt_dry_run/sql/parsing.py:8 | any run of whitespace can replace any other without changing the tokens |
| Parsing.CaseInsensitive | dbt_dry_run/sql/parsing.py:8 | upper-casing the code does not change its tokens |
| Parsing.WithRecursiveDetected | dbt_dry_run/test/node_runner/test_incremental_runner.py:548-577 | `with` and `recursive` in any case, separated by whitespace, are detected wherever they stand as whole tokens |
| Parsing.MergeSqlText | dbt_dry_run/sql/parsing.py:15-29 | the MERGE statement after `dedent`: the target literal, `USING (`, the select, `)`, `ON False`, `WHEN NOT MATCHED THEN`, and the sorted comma-separated columns in both `INSERT` and `VALUES`, with the blank last line emptied |
| Parsing.MergeSqlColumnOrder | dbt_dry_run/sql/parsing.py:18 | the statement depends only on which names are common, not on the order they are given in |
| IncrementalRunner.PreprocessSteps | dbt_dry_run/node_runner/incremental_runner.py:19-25 | the incremental preprocessor raises exactly when the literal step does; otherwise the header is added and then the declaration |
| IncrementalRunner.HeaderThenDeclaration | dbt_dry_run/node_runner/incremental_runner.py:22-23 | the header step then the declaration step never raise and apply both in that order |
| IncrementalRunner.DeclarationPrecedesHeader | dbt_dry_run/test/node_runner/test_incremental_runner.py:66-99 | with both a header and a `_dbt_max_partition` partitioning, the statement starts with the declaration, then the header, then the statement with its literals |
| IncrementalRunner.PlanMerge | dbt_dry_run/node_runner/incremental_runner.py:33-41 | the merge check is skipped exactly without a predicted table, for recursive common table expressions, or with no common names; otherwise a failing table literal raises, and a MERGE over the sorted common names and the table's literal is checked |
| IncrementalRunner.MergeOutcome | dbt_dry_run/node_runner/incremental_runner.py:27-48 | the merge check makes at most one call; a raise makes none; a changed result is the node with no table and the MERGE query's non-success status and exception |
| IncrementalRunner.VerifyMerge | dbt_dry_run/node_runner/incremental_runner.py:27-48 | `_verify_merge_type_compatibility` returns the merge check's result and issues exactly its calls |
| IncrementalRunner.ReplacePartition | dbt_dry_run/node_runner/incremental_runner.py:50-68 | without a table or a partitioning nothing changes; otherwise the fields are kept in order, followed by one `_PARTITIONTIME` column, node, status and exception kept |
| IncrementalRunner.PartitionColumnNames | dbt_dry_run/node_runner/incremental_runner.py:59-68 | the partition column adds exactly the name `_PARTITIONTIME` to the table's names |
| IncrementalRunner.Reconcile | dbt_dry_run/node_runner/incremental_runner.py:86-89 | a result that is not SUCCESS is kept; a successful one goes through the node's schema-change handler, IGNORE when the node sets none |
| IncrementalRunner.MergeOf | dbt_dry_run/node_runner/incremental_runner.py:27-48 | the merge check of a node, as a function of the first result and the existing table |
| IncrementalRunner.Run | dbt_dry_run/node_runner/incremental_runner.py:70-94 | `run` returns the result and issues the warehouse calls of the specification of the run |
| IncrementalRunner.QueryAndCheck | dbt_dry_run/node_runner/incremental_runner.py:76-94 | after preprocessing: the query, the checks against the existing table, and the partition column |
| IncrementalRunner.CheckAgainstTarget | dbt_dry_run/node_runner/incremental_runner.py:80-89 | a success that is not fully refreshed reads the existing table and, when there is one, checks the merge and reconciles the schema |
| IncrementalRunner.MergeAndReconcile | dbt_dry_run/node_runner/incremental_runner.py:83-89 | the merge check's calls, then the schema reconciliation of its result, or its error |
| IncrementalRunner.TargetMakesAtMostOneQuery | dbt_dry_run/node_runner/incremental_runner.py:80-89 | the checks against the existing table issue at most one query |
| IncrementalRunner.AtMostTwoQueries | dbt_dry_run/node_runner/incremental_runner.py:70-94 | a run issues at most two queries: the model's and the MERGE |
| IncrementalRunner.UpstreamFailureMakesNoCall | dbt_dry_run/node_runner/incremental_runner.py:71-74 | a failed upstream ends the run as a FAILURE with no table and the upstream exception, before any warehouse call |
| IncrementalRunner.NoTargetLookup | dbt_dry_run/node_runner/incremental_runner.py:76-80 | a failed query or a full refresh makes exactly one call, the query, and its answer becomes the result |
| IncrementalRunner.FailedMergeIsFinal | dbt_dry_run/node_runner/incremental_runner.py:45-48 | a failing MERGE query gives the node with no table and the MERGE's status and exception, which no handler or partition column changes |
| IncrementalRunner.MissingOnSchemaChangeIgnores | dbt_dry_run/node_runner/incremental_runner.py:86-89 | a node without an on-schema-change setting takes the existing table and stays SUCCESS |
| IncrementalRunner.PartitionColumnLast | dbt_dry_run/node_runner/incremental_runner.py:91-92 | a successful time-ingestion partitioned result ends with the partition column after all its own fields |
| ModelRunner.IndexOfName | dbt_dry_run/node_runner/model_runner.py:20-24 | the position of the first field with the name, before which no field has it; it is a position inside the list exactly when the name is present |
| ModelRunner.Put | dbt_dry_run/node_runner/model_runner.py:24 | setting one entry of a name-keyed dictionary keeps names distinct and adds exactly the new name |
| ModelRunner.PutAll | dbt_dry_run/node_runner/model_runner.py:24 | `update` keeps names distinct and gives exactly the names of both |
| ModelRunner.DictOf | dbt_dry_run/node_runner/model_runner.py:20-23 | the dictionary comprehension has distinct names, exactly the names of the fields |
| ModelRunner.Lookup | dbt_dry_run/node_runner/model_runner.py:24 | an entry keeps its name; it is the target's field when the target has the name and stays as it was otherwise |
| ModelRunner.Overridden | dbt_dry_run/node_runner/model_runner.py:24 | the predicted entries in place, each replaced by the target's field of the same name |
| ModelRunner.PutAllSpec | dbt_dry_run/node_runner/model_runner.py:20-26 | with distinct names, `update` keeps the predicted keys in their order, each with the target's value when the target has that name, followed by the target's other fields in their order |
| ModelRunner.DictOfDistinct | dbt_dry_run/node_runner/model_runner.py:20-23 | a list with distinct names is its own name-keyed dictionary |
| ModelRunner.OldAppendNewColumnsHandler | dbt_dry_run/node_runner/model_runner.py:15-27 | without a predicted table nothing changes; otherwise only the table is replaced, its names are the union of both tables' names, and they are distinct |
| ModelRunner.OldAppendOrder | dbt_dry_run/node_runner/model_runner.py:15-27 | the model runner's append keeps the predicted order, overriding each field with the target's field of the same name, then adds the target's other fields |
| ModelRunner.AppendVersionsSameNames | dbt_dry_run/node_runner/model_runner.py:15-27 | the model runner's append and the incremental runner's append give the same column names, in different orders |
| ModelRunner.OldSyncAllColumnsHandler | dbt_dry_run/node_runner/model_runner.py:30-33 | the model runner's sync handler returns the result unchanged |
| ModelRunner.OldApplyHandler | dbt_dry_run/node_runner/model_runner.py:63-70 | each setting selects its handler; sync changes nothing |
| ModelRunner.ModifySql | dbt_dry_run/node_runner/model_runner.py:83-101 | a view is wrapped by its alias and then given its header; an incremental model gets its header and then the declaration; anything else gets its header only |
| ModelRunner.DeclarationBeforeHeader | dbt_dry_run/node_runner/model_runner.py:87-99 | for an incremental model with a header and a `_dbt_max_partition` partitioning the statement is the declaration, the header, then the statement |
| ModelRunner.DeclarationOnlyForIncremental | dbt_dry_run/node_runner/model_runner.py:90-99 | no model other than an incremental one gets the declaration |
| ModelRunner.ViewWrapMatchesStatements | dbt_dry_run/node_runner/model_runner.py:84-85 | with a non-empty alias the view wrap is the statements module's `create_or_replace_view` |
| ModelRunner.Outcome | dbt_dry_run/node_runner/model_runner.py:110-122 | the query's answer, unless it is a successful incremental model with an existing table, which goes through the model runner's handler for its setting, IGNORE by default |
| ModelRunner.MissingOnSchemaChangeIgnores | dbt_dry_run/node_runner/model_runner.py:120 | without a setting, a successful incremental model takes the existing table and stays SUCCESS |
| ModelRunner.Run | dbt_dry_run/node_runner/model_runner.py:103-124 | a failed upstream is a FAILURE with no call; another raise propagates with no call; otherwise one query, plus one schema lookup exactly for a successful incremental model, and the outcome of those answers |
| TableRunner.ModifySql | dbt_dry_run/node_runner/table_runner.py:9-12 | a non-empty header is prepended on its own line, otherwise the statement is unchanged; for a table this is what the model runner sends too |
| TableRunner.Run | dbt_dry_run/node_runner/table_runner.py:14-24 | a failed upstream is a FAILURE with no call; another raise propagates with no call; otherwise exactly one query, of the statement with its header, whose answer is the result |
| ViewRunner.ModifySql | dbt_dry_run/node_runner/view_runner.py:9-13 | the statement is wrapped as a view named by the alias, recoverable from it, then given its header; for a view this is what the model runner sends too |
| ViewRunner.BytesSql | dbt_dry_run/node_runner/view_runner.py:22-24 | the compiled code, after the header when there is one |
| ViewRunner.Run | dbt_dry_run/node_runner/view_runner.py:15-33 | a failed upstream is a FAILURE with no call and zero bytes; another raise propagates with no call; otherwise two queries, the compiled code for its bytes and then the view, with the second query's answer and the first's byte count |
| NodeTestRunner.Run | dbt_dry_run/node_runner/node_test_runner.py:9-27 | a failed upstream is a FAILURE with no call and zero bytes; another raise propagates with no call; otherwise two queries, the compiled code for its bytes and then the statement with its literals, with the second's answer and the first's byte count |
| SeedRunner.ColumnType | dbt_dry_run/node_runner/seed_runner.py:23-26 | a non-empty `column_types` override wins; otherwise the type the warehouse infers, if any |
| SeedRunner.SeedFields | dbt_dry_run/node_runner/seed_runner.py:21-39 | succeeds exactly when every column has a type in the enumeration, with one field per column in order; otherwise fails with the error of the first column that does not |
| SeedRunner.Run | dbt_dry_run/node_runner/seed_runner.py:14-44 | no root path is a value error; the first column with no type is a FAILURE with no table and an unknown-schema exception; a type outside the enumeration raises its key error; otherwise SUCCESS with the fields |
| SeedRunner.ValidateNode | dbt_dry_run/node_runner/seed_runner.py:46-47 | a seed is never rejected before it runs |
| SeedRunner.FirstUntypedDecides | dbt_dry_run/node_runner/seed_runner.py:22-35 | only the first untyped column is reported, whatever columns follow it |
| SeedRunner.OverrideWins | dbt_dry_run/node_runner/seed_runner.py:23-38 | in a successful seed, a column with an override has the override's type, upper-cased |
| SourceRunner.SourceOutcome | dbt_dry_run/node_runner/source_runner.py:14-31 | a source that is not external has no table and succeeds exactly when it exists, failing with a source-missing exception otherwise; an external source succeeds exactly when its columns convert, with that table, and otherwise fails with the value error |
| SourceRunner.Run | dbt_dry_run/node_runner/source_runner.py:14-31 | an external source makes no warehouse call; any other source makes exactly one existence check, and the result follows from it |
| SourceRunner.NoQueryForSources | dbt_dry_run/node_runner/source_runner.py:24-29 | the existence check is not a query |
| SnapshotRunner.CheckColsMissing | dbt_dry_run/node_runner/snapshot_runner.py:14-17 | nothing is missing without check columns or with `all`; otherwise exactly the check columns that are not fields of the table |
| SnapshotRunner.SnapshotFieldsOrder | dbt_dry_run/node_runner/snapshot_runner.py:25-62 | the metadata columns in order `dbt_scd_id`, `dbt_updated_at`, `dbt_valid_from`, `dbt_valid_to`, then `dbt_is_deleted` exactly when hard deletes are `new_record` |
| SnapshotRunner.GetSnapshotFields | dbt_dry_run/node_runner/snapshot_runner.py:68-74 | the loop keeps exactly the metadata columns whose filter accepts the configuration |
| SnapshotRunner.ValidateSnapshotConfig | dbt_dry_run/node_runner/snapshot_runner.py:76-119 | no table is a value error; a list of unique keys is a runtime error; otherwise node and table are kept, and any change is a FAILURE with a snapshot-config exception; a successful result passes unchanged exactly when the table meets the unique-key, updated-at and check-column settings |
| SnapshotRunner.WithSnapshotFields | dbt_dry_run/node_runner/snapshot_runner.py:133-137 | the table's fields in order followed by the selected metadata columns; node, status and exception kept |
| SnapshotRunner.Outcome | dbt_dry_run/node_runner/snapshot_runner.py:127-139 | a query that did not succeed, or gave no table, is the result as answered |
| SnapshotRunner.PreprocessIsInsert | dbt_dry_run/node_runner/snapshot_runner.py:66 | the snapshot preprocessor is the literal step alone |
| SnapshotRunner.Run | dbt_dry_run/node_runner/snapshot_runner.py:121-139 | a failed upstream is a FAILURE with no call; another raise propagates with no call; otherwise exactly one query and the outcome of its answer |
| SnapshotRunner.MetadataColumnsValidate | dbt_dry_run/node_runner/snapshot_runner.py:85-105 | a timestamp snapshot keyed on `dbt_scd_id` and updated at `dbt_updated_at` validates against the metadata columns the run adds, whatever the query predicted |
| SnapshotRunner.ValidatedTableHasMetadata | dbt_dry_run/node_runner/snapshot_runner.py:133-138 | a successful query that validates has the predicted fields followed by the metadata columns |
| Literals.ExampleValueSettings.constructor | dbt_dry_run/literals.py:53 | at import the production values are active |
| Literals.ExampleValueSettings.EnableTestExampleValues | dbt_dry_run/literals.py:56-61 | enabling selects the test values, disabling the production values |
| Literals.ExampleValue | dbt_dry_run/literals.py:11-65 | an example value exists for every type except STRUCT and RECORD, whose lookup is a key error naming the type |
| Literals.ExampleValuesDifferOnlyInUuid | dbt_dry_run/literals.py:11-51 | the two tables agree on every type but STRING and BYTES, whose production values quote the random UUID |
| Literals.ValueLiteral | dbt_dry_run/literals.py:68-77 | a complex field with sub-fields is a `STRUCT` of its sub-fields' literals joined by commas; any other field is its type's example value, an error exactly when the example table has none; a repeated field's value is exactly that value in brackets |
| Literals.FieldLiteral | dbt_dry_run/literals.py:78-80 | the value followed by `as` and the backticked field name; it fails when the value does |
| Literals.FieldLiterals | dbt_dry_run/literals.py:72 | one literal per field in order; it fails exactly when some field's literal does |
| Literals.TableLiteral | dbt_dry_run/literals.py:83-86 | `(SELECT` and the fields' literals joined by commas, then `)`; it fails exactly when some field's literal does |
| Literals.FieldLiteralDefinedIff | dbt_dry_run/literals.py:68-80 | a field's literal exists exactly when no complex field without sub-fields occurs in it |
| Literals.SingleFieldTable | dbt_dry_run/literals.py:83-86 | a one-field table's literal is that field's literal in `(SELECT ...)` |
| Literals.OneFieldTable | dbt_dry_run/literals.py:78-86 | a one-field table's literal is the value, `as`, the backticked name, inside `(SELECT ...)` |
| Literals.SingleFieldStruct | dbt_dry_run/literals.py:70-77 | a complex field with one sub-field is `STRUCT(` that sub-field's literal `)`, bracketed when repeated |
| Literals.TestModeIntegerLiteral | dbt_dry_run/test/test_literals.py:42-44 | in test mode an integer field `foo` gives `(SELECT 1 as `foo`)` |
| Literals.TestModeRepeatedStringLiteral | dbt_dry_run/test/test_literals.py:47-49 | in test mode a repeated string field `foo` gives `(SELECT ['foo'] as `foo`)` |
| Literals.StructOfStringLiteral | dbt_dry_run/test/test_literals.py:52-92 | in test mode a struct holding one string field gives `STRUCT('foo' as ...)`, in brackets when repeated |
| Literals.NestedStructLiteral | dbt_dry_run/test/test_literals.py:63-79 | in test mode a struct in a struct holding an integer gives `(SELECT STRUCT(STRUCT(1 as ...) as ...) as ...)` |
| Literals.UpstreamResults | dbt_dry_run/literals.py:131-136 | the stored results of the deep dependencies that have one, and only those |
| Literals.FailureReport | dbt_dry_run/literals.py:141-143 | one entry per failed upstream, its id and its status |
| Literals.SubstitutableUpstreams | dbt_dry_run/literals.py:130-146 | no deep dependencies is a key error; some stored upstream that did not succeed is an upstream-failed error listing the failures; otherwise exactly the stored upstreams that have a table, all successful |
| Literals.InsertDependantSqlLiterals | dbt_dry_run/literals.py:130-149 | the upstream checks' error when they raise; otherwise the compiled code with the substitutable upstreams replaced |
| ColumnsMetadata.ExtractFieldsPaths | dbt_dry_run/columns_metadata.py:13-20 | the extracted names are exactly the prefix followed by each dotted path of the fields |
| ColumnsMetadata.ExtractFieldNames | dbt_dry_run/columns_metadata.py:13-20 | the loop, with its recursion into sub-fields, lists each field's name before its sub-fields' dotted names |
| ColumnsMetadata.ExpandTableFields | dbt_dry_run/columns_metadata.py:23-30 | the set of every field's dotted path, sub-fields included |
| ColumnsMetadata.SplitColumnDataTypeAndMode | dbt_dry_run/columns_metadata.py:33-55 | the mode is REPEATED exactly when the type ends in `[]` and NULLABLE otherwise; the type printed back with the suffix is the input; an unknown type is an unknown-data-type error |
| ColumnsMetadata.SplitDataTypeRoundTrip | dbt_dry_run/columns_metadata.py:37-51 | every type parses back from its name as NULLABLE, and from its name with `[]` as REPEATED |
| ColumnsMetadata.SplitDataTypeUnknown | dbt_dry_run/columns_metadata.py:50-55 | a string that is no type's name, with or without `[]`, is an error |
| ColumnsMetadata.GroupByRoot | dbt_dry_run/columns_metadata.py:80-82 | the groups, in order, are the keys; no group is empty; every member's root is its group's root; neighbouring groups have different roots |
| ColumnsMetadata.SubFieldNamesOfGroup | dbt_dry_run/columns_metadata.py:58-67 | the sub-field names of a well-formed group are distinct, and each member after the root is the root, a dot and its name |
| ColumnsMetadata.SubFieldMap | dbt_dry_run/columns_metadata.py:58-71 | each sub-field name maps to the column stored under the root, a dot and that name |
| ColumnsMetadata.SubFieldMapKeys | dbt_dry_run/columns_metadata.py:58-71 | the sub-field map has one key per member after the root, fewer keys than the columns, and its keys are the sub-field names |
| ColumnsMetadata.GroupField | dbt_dry_run/columns_metadata.py:84-103 | a group makes one field of its root; a group that does not start with its root is an invalid-column-specification error; every error is a value error |
| ColumnsMetadata.FieldsOfGroups | dbt_dry_run/columns_metadata.py:84-105 | one field per group, in order; every error is a value error |
| ColumnsMetadata.ColumnFieldsOf | dbt_dry_run/columns_metadata.py:74-105 | no columns is an invalid-column-specification error; a success has at least one field; every error is a value error |
| ColumnsMetadata.SortedKeys | dbt_dry_run/columns_metadata.py:79 | the keys, each once, in strictly ascending order |
| ColumnsMetadata.ColumnFields | dbt_dry_run/columns_metadata.py:74-105 | no columns is an invalid-column-specification error; a success has at least one field; every error is a value error |
| ColumnsMetadata.SortedColumnNames | dbt_dry_run/columns_metadata.py:79 | the sort computes exactly the sorted keys |
| ColumnsMetadata.ToFields | dbt_dry_run/columns_metadata.py:74-105 | `_to_fields`, with its loop over the groups and its recursion, computes exactly the column fields |
| ColumnsMetadata.GroupToField | dbt_dry_run/columns_metadata.py:85-103 | one pass of the loop computes exactly the group's field |
| ColumnsMetadata.MapColumnsToTable | dbt_dry_run/columns_metadata.py:108-109 | a table of the column fields, or their error |
| ColumnsMetadata.GroupFieldShape | dbt_dry_run/columns_metadata.py:86-99 | a group that converts starts with its root, has no sub-fields exactly when its sub-field map is empty, and otherwise has the conversion of that map |
| ColumnsMetadata.ColumnFieldsPaths | dbt_dry_run/columns_metadata.py:74-105 | the dotted paths of the converted fields are exactly the column names |
| ColumnsMetadata.ExpandColumnsTable | dbt_dry_run/columns_metadata.py:23-30 | expanding the table made from columns gives back exactly the column names |
| ColumnsMetadata.ColumnFieldsSorted | dbt_dry_run/columns_metadata.py:79-105 | the converted top-level fields are in strictly ascending order of name |
| ColumnsMetadata.ColumnFieldsRoots | dbt_dry_run/columns_metadata.py:86-90 | when conversion succeeds, every column's root is itself a column and names one of the top-level fields |
| ColumnsMetadata.ColumnFieldsTypes | dbt_dry_run/columns_metadata.py:91-103 | every top-level field is a column whose data type is the field's type, with `[]` exactly when the field is repeated |
| Scheduler.RunnableIds | dbt_dry_run/scheduler.py:49-52 | exactly the manifest keys whose node is runnable |
| Scheduler.WithDeepNodes | dbt_dry_run/scheduler.py:100 | the node's deep dependencies are set to the given list and nothing else about it changes |
| Scheduler.Next | dbt_dry_run/scheduler.py:32-45 | one round of the filter's loop: only keys of the manifest |
| Scheduler.NextMembers | dbt_dry_run/scheduler.py:32-45 | a key is in the next round exactly when it is in the manifest and some node of this round depends on it |
| Scheduler.ReachTransitive | dbt_dry_run/scheduler.py:29-47 | what a node reaches through its dependencies, each of those nodes reaches too |
| Scheduler.FilterClosureIsReach | dbt_dry_run/scheduler.py:22-47 | within the manifest, the filtered keys are the model and everything it reaches through its dependencies |
| Scheduler.DeepDepsFacts | dbt_dry_run/scheduler.py:87-101 | every deep dependency is a runnable node of the manifest, ranked below the node |
| Scheduler.DeepReach | dbt_dry_run/scheduler.py:87-101 | every deep dependency is reached through the node's dependencies |
| Scheduler.DepthOfDeps | dbt_dry_run/scheduler.py:103-111 | every deep dependency is strictly shallower; depth zero means no deep dependencies; a deeper node has a deep dependency exactly one level up |
| Scheduler.Ready | dbt_dry_run/scheduler.py:110-111 | the keys left with no dependency left, a subset of the keys left |
| Scheduler.LayerReady | dbt_dry_run/scheduler.py:110-111 | the keys ready after removing the first layers are exactly the next layer, never empty while keys are left |
| Scheduler.TopologicalGenerations | dbt_dry_run/scheduler.py:110-111 | the generations are the layers of the graph: generation i holds exactly the keys at depth i, each once |
| Scheduler.DepthsLayered | dbt_dry_run/scheduler.py:103-111 | the scheduled keys with their deep dependencies are layered by depth |
| Scheduler.ScheduledAreRunnable | dbt_dry_run/scheduler.py:49-62 | without a model filter the scheduled keys are the runnable ones; with one, it is a key error exactly when the model is missing or not runnable, and otherwise the runnable keys among the model and what it reaches |
| Scheduler.ScheduledClosed | dbt_dry_run/scheduler.py:49-62 | the deep dependencies of every scheduled key are scheduled |
| Scheduler.FirstGenerationHasNoDependencies | dbt_dry_run/scheduler.py:103-111 | a scheduled key is in the first generation exactly when it has no deep dependencies |
| Scheduler.DependenciesRunEarlier | dbt_dry_run/scheduler.py:64-70 | every deep dependency of a node is scheduled in an earlier generation |
| Scheduler.NodesOf | dbt_dry_run/scheduler.py:67-69 | the manifest's nodes for the keys, in order; one per key when all are in the manifest |
| Scheduler.ManifestScheduler.constructor | dbt_dry_run/scheduler.py:15-20 | the scheduler holds the manifest's nodes and the model filter |
| Scheduler.ManifestScheduler.FilterManifest | dbt_dry_run/scheduler.py:22-47 | no filter gives every key; a filter naming no node is a key error; otherwise the model and every key it reaches |
| Scheduler.ManifestScheduler.GetRunnableKeys | dbt_dry_run/scheduler.py:49-62 | the scheduled keys, or the key error |
| Scheduler.ManifestScheduler.Len | dbt_dry_run/scheduler.py:72-73 | the number of scheduled keys, or the key error |
| Scheduler.ManifestScheduler.GetRunnableDependencies | dbt_dry_run/scheduler.py:87-101 | returns the node's deep dependencies and records them on the node, writing nothing but deep dependencies |
| Scheduler.ManifestScheduler.DeepDependencies | dbt_dry_run/scheduler.py:105-109 | the graph data maps every scheduled key to its deep dependencies, each recorded on its node |
| Scheduler.ManifestScheduler.CalculateDepths | dbt_dry_run/scheduler.py:103-111 | the key error, with no node changed; or the generations of the scheduled keys, a closed set, each node annotated |
| Scheduler.ManifestScheduler.Iterate | dbt_dry_run/scheduler.py:64-70 | the key error; or one list of annotated nodes per generation of the scheduled keys |
| ColumnLinting.ExtraColumns | dbt_dry_run/linting/column_linting.py:12-13 | exactly the documented columns that are not dotted paths of the predicted table |
| ColumnLinting.UndocumentedColumns | dbt_dry_run/linting/column_linting.py:26-27 | exactly the dotted paths of the predicted table that are not documented |
| ColumnLinting.Messages | dbt_dry_run/linting/column_linting.py:17-18 | one message per column, in order |
| ColumnLinting.SortedNames | dbt_dry_run/linting/column_linting.py:17 | the loop lists the names in ascending order, each once |
| ColumnLinting.AppendMessages | dbt_dry_run/linting/column_linting.py:16-18 | the loop computes exactly one message per column, in order |
| ColumnLinting.GetExtraDocumentedColumns | dbt_dry_run/linting/column_linting.py:9-20 | `get_extra_documented_columns` returns exactly the extra-column messages |
| ColumnLinting.GetUndocumentedColumns | dbt_dry_run/linting/column_linting.py:23-34 | `get_undocumented_columns` returns exactly the undocumented-column messages |
| ColumnLinting.Tagged | dbt_dry_run/linting/column_linting.py:51-53 | one linting error per message, in order, each carrying the rule's name |
| ColumnLinting.LintColumns | dbt_dry_run/linting/column_linting.py:43-55 | `lint_columns` returns exactly the linted result |
| ColumnLinting.ExtraDocumentedMessages | dbt_dry_run/linting/column_linting.py:9-20 | one message per extra column, and a message is present exactly when it names a documented column the table lacks |
| ColumnLinting.UndocumentedMessages | dbt_dry_run/linting/column_linting.py:23-34 | one message per undocumented column, and a message is present exactly when it names a table path the documentation lacks |
| ColumnLinting.KeysNotNames | dbt_dry_run/linting/column_linting.py:9-34 | only the documented column names matter, not their descriptions or types |
| ColumnLinting.LintingErrorsOrder | dbt_dry_run/linting/column_linting.py:37-54 | the undocumented-column errors come first, then the extra-column errors, each tagged with its rule |
| ColumnLinting.RuleErrorsOfRules | dbt_dry_run/linting/column_linting.py:37-54 | the errors of the two rules, in the order the rules are registered |
| ColumnLinting.LintingFailsIffColumnsDiffer | dbt_dry_run/linting/column_linting.py:43-55 | without a table nothing changes; otherwise node, table, status and exception are kept, and linting fails exactly when the documented columns differ from the table's dotted paths |
| ResultReporting.ExitCode | dbt_dry_run/result_reporter.py:26-47 | the exit code is 0 or 1, and 1 exactly when some result is not SUCCESS and its node is not excluded |
| ResultReporting.IncludedFailures | dbt_dry_run/result_reporter.py:27-36 | some failure is left after removing the excluded ones exactly when some result counts as a failure |
| ResultReporting.ResultReporter.constructor | dbt_dry_run/result_reporter.py:8-10 | the reporter holds the results and the excluded nodes |
| ResultReporting.ResultReporter.ReportAndCheckResults | dbt_dry_run/result_reporter.py:26-47 | the loops compute the exit code, which is 1 exactly when some stored result is not SUCCESS and its node is not excluded |
| ResultReporting.ExcludedFailuresIgnored | dbt_dry_run/result_reporter.py:28-47 | whatever excluded nodes report, the exit code is the same |
| ResultReporting.SkippedCounts | dbt_dry_run/result_reporter.py:28-36 | a SKIPPED result of a node that is not excluded fails the run |
| ResultReporting.AllSuccessExitsZero | dbt_dry_run/result_reporter.py:38-47 | when every result is SUCCESS the exit code is 0 |
| Execution.NonSqlIdsListsEvery | dbt_dry_run/execution.py:76-85 | an id is collected exactly when some manifest node with that id has a language other than absent or "sql" |
| Execution.NonSqlIdsEmpty | dbt_dry_run/execution.py:76-87 | nothing is collected exactly when every node is SQL or has no language, and every non-SQL node's id is collected |
| Execution.ValidateManifestCompatibility | dbt_dry_run/execution.py:76-93 | the loop raises exactly when some node is not SQL, and the raised manifest validation error lists the id of every such node |
| Execution.DryRunNode | dbt_dry_run/execution.py:51-58 | when dispatch raises, the exception propagates and the results are untouched; otherwise the dispatched result, column-linted when the node asks for it, is added under the node's id |
| Execution.AddedValid | dbt_dry_run/results.py:33-35 | adding a result keeps the ids listed once each, adds the node's id and stores the given result under it |
| Execution.RunGeneration | dbt_dry_run/execution.py:108-128 | the loop dry runs every node of a generation and leaves the store and the first raised exception that the generation's specification gives |
| Execution.RunNodesGrows | dbt_dry_run/execution.py:108-115 | running a generation only adds results and keeps the ids listed once each |
| Execution.RunNodesStoresEvery | dbt_dry_run/execution.py:108-115 | every node of a generation whose dry run did not raise has its result stored |
| Execution.RunNodesRaises | dbt_dry_run/execution.py:121-128 | waiting on a generation raises exactly when some node's dry run raised |
| Execution.RunNodesFirstFailure | dbt_dry_run/execution.py:121-128 | the exception raised names the first node, in generation order, whose dry run raised, and carries its exception |
| Execution.RunAllGenerations | dbt_dry_run/execution.py:108-115 | the loop over generations leaves the store and exception that running the generations in sequence gives |
| Execution.FailingGenerationIsLast | dbt_dry_run/execution.py:108-115 | a failing run ends with the generation that raised, every generation before it having completed without an exception |
| Execution.FailureEndsRun | dbt_dry_run/execution.py:108-115 | no generation after the one that raised changes the outcome |
| Execution.RunGenerationsStoresAll | dbt_dry_run/execution.py:108-118 | a run that raises nothing stores a result for every node of every generation and keeps earlier results |
| Execution.Schedule | dbt_dry_run/execution.py:105-108 | the scheduler yields the topological generations of the manifest's runnable nodes: every scheduled node is a runnable node of the manifest, and every runnable node is scheduled |
| Execution.GenerationsAreRunnableNodes | dbt_dry_run/scheduler.py:49-79 | the nodes of the generations are exactly the manifest's runnable nodes, each one its manifest entry up to its deep dependencies |
| Execution.DryRunManifest | dbt_dry_run/execution.py:96-118 | a manifest with non-SQL nodes is refused before anything runs; otherwise the generations are the manifest's, and the run either raises the first generation failure or returns fresh results equal to running every generation in turn |
| Execution.RunnableNodesAllStored | dbt_dry_run/execution.py:96-118 | a dry run that raises nothing returns a result for every runnable node of the manifest |

## Left out

- **Reference substitution.** sqlglot's `replace_upstream_sql` and its helpers in `literals.py` are a foreign parser library. They are a function parameter of the model (`Statements.Substitute`), applied to the SQL, each upstream node and its predicted table. So the model states which upstream tables are substituted and with which literal, not how the SQL text changes.
- **Concurrency.** The thread pool, futures and the store's lock are not modelled. The nodes of a generation run one after the other, in the order the scheduler lists them. A node may therefore see results stored earlier in its own generation, which the concurrent original does not guarantee.
- **Scheduling order.** networkx's `topological_generations` is re-implemented as layering by depth. The order of nodes within a generation is left open: it is any order that lists each node once.
- **Acyclic manifests only.** The scheduler assumes what a dbt manifest guarantees: every node is keyed by its unique id and the dependency graph is acyclic. A ghost rank witnesses the acyclicity. Cycles, on which networkx raises, are not modelled.
- **Runnability.** Runnability follows `scheduler.py`: a model or seed materialized as a view, table, incremental or seed. `test_scheduler.py` also schedules external sources and skips disabled nodes. The code does neither, and the model follows the code.
- **CSV reading.** Reading a seed's CSV with agate, and `convert_agate_type`, are file I/O and a foreign library. A seed's columns and their inferred type names are an input.
- **Warehouse clients.** The BigQuery, Snowflake and Postgres clients, with their retries, are network I/O. The warehouse is the abstract interface of `sql_runner/__init__.py`, answered by oracle functions: the query response per SQL text, the schema per node and existence per node.
- **Global state and flags.** The `FULL_REFRESH` and skip-not-compiled flags are parameters. So are the base runner's `validate_node` and the node's `get_should_check_columns`, which are not part of this model. `NodeDispatch.ValidateNode` models it as follows. The not-compiled FAILURE/SKIPPED check is as `test_test_runner.py` shows it for models. Seeds are exempt, as `seed_runner.py:46-47` overrides it. The exemption of sources is assumed: no source runner `validate_node` is part of this model, and `models/manifest.py:115` defaults `compiled` to false.
- **Random example values.** The random UUID example value is an opaque `uuid` parameter. All STRING and BYTES example values of one call share it, where the original draws a fresh `uuid4()` for each value.
- Strings.Lower/Upper: the case mapping covers ASCII letters only, where Python's `str.lower()` and `str.upper()` are Unicode-aware (`'ſ'.upper() == 'S'`, `'ß'.upper() == 'SS'`). SeedRunner.SeedFields (column type overrides), Manifest.ParsePartitionBy (the data type) and Parsing.CaseInsensitive are therefore ASCII-only statements.
- Schema.CommonFieldNames: `incremental_runner.py` calls `common_field_names`, which `models/table.py` does not define. The model takes it to be the top-level field names the two tables share.
- Schema.ParseFieldType: `literals.py` names a RANGE field type that the enumeration in `models/table.py:17-36` lacks, so RANGE is added to the field types. This changes behaviour where a type name is parsed. SeedRunner.SeedFields and SeedRunner.Run accept a `range` column type, where `BigQueryFieldType[new_type.upper()]` at `seed_runner.py:37` raises a `KeyError`. ColumnsMetadata.SplitColumnDataTypeAndMode accepts `RANGE`, where `columns_metadata.py:50-55` raises. Schema.ConvertField accepts a `RANGE` field, where the `TableField` validator raises.
- Exceptions.IsValueError: `InvalidColumnSpecification`, `UnknownDataTypeException`, `SourceMissingException` and `UnknownSchemaException` are not defined in `exception.py`, which is not part of this model. The model assumes that the first two subclass `ValueError`. That is what the rows saying "every error is a value error" rest on, and it is why SourceRunner.SourceOutcome records an invalid column specification as a FAILURE rather than raising it. The assumption is supported by `integration/projects/test_project_with_external_tables/test_project_with_external_tables.py:32-39`: that test expects an external source without columns to fail with `InvalidColumnSpecification`, and only the `except ValueError` at `source_runner.py:21` can produce that result.
- **Result arities.** The abstract `query` of `sql_runner/__init__.py:25-29` returns three values, and neither `DryRunResult` (`results.py:15-20`, `models/dry_run_result.py:27-34`) has a byte field. The view and test runners as written unpack four values from `query` (`view_runner.py:25,28`, `node_test_runner.py:16-22`) and build five-argument `DryRunResult`s (`view_runner.py:19,30`, `node_test_runner.py:13,24`), so against these declarations they raise a `TypeError` or `ValueError`. The model takes the evidently intended interface instead: a four-part query (`Warehouse.SqlRunner.QueryWithBytes`) and a `ByteCountedResult` pairing the result with the bytes processed. ViewRunner.Run and NodeTestRunner.Run therefore model that intended behaviour, not the raise.
- SnapshotRunner.WithSnapshotFields: the snapshot runner appends its metadata fields to `result.table.fields` in place, and that table is the object the warehouse returned. The model builds a new table, so the aliasing is not captured.
- **Shared node objects.** `_get_runnable_dependencies` writes the deep dependencies onto the manifest's node objects. The model writes them onto the scheduler's own map of nodes, so the aliasing between the scheduler and the manifest is not captured.
- ColumnLinting.GetExtraDocumentedColumns: Python set iteration order is unspecified, so the messages are listed in ascending column order. The model does not claim the original's order.
- ColumnLinting.GetUndocumentedColumns: the messages are listed in ascending column order, for the same reason.
- **Exception messages.** Exception message texts are not modelled. An error carries its kind and the ids or names it reports. The two `KeyError`s of the scheduler's model filter are both `KeyError(model)`.
- **Output and glue.** These are not modelled:
  - console output: the failure summary, progress prints and the report's banner lines;
  - `Results.finish`;
  - `create_context`;
  - reading the manifest from a file;
  - building a table from a BigQuery client table;
  - the adapter, CLI and profile loading.
- **Unbounded integers.** Byte counts are unbounded integers.
