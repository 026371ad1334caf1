# roster — SQL builders and the local driver, modelled in Dafny

roster is a small HTTP service that keeps people, courses, families, signups and
attendance records in SQLite. Its person handlers build their statements with two builders,
`insert` and `select`, appending a hand-written `WHERE` clause where they filter
(deleting a person uses a fully hand-written statement). A third builder, `table`,
produces the schema the database driver creates at start-up.

- `insert(into, rows)` builds one multi-row `INSERT`. Its columns are the table's
  property keys minus the generated `id`, `created` and `updated`. It has one
  `(?, ..., ?)` group per row. Its arguments are the rows' values laid out row by
  row, with a missing value bound as `null`.
- `select(table, columns)` builds `SELECT table.key, ... FROM table` from a mask of
  boolean flags. Only the keys whose flag is true are selected, in the mask's key order.
- `table(name, ...indexes)` is a tagged template that builds a table's DDL. The DDL
  has the metadata columns, the template's columns (plain or foreign keys), a
  trigger that refreshes `updated`, and one unique index per index list. `CREATE`
  is the pragma followed by the five tables' DDL, and `TABLES` maps each table to
  its property keys.
- The local driver's prepared statement buffers the values bound to it. Its
  `batch` composes one `BEGIN; ... END;` script from several statements, with
  their arguments concatenated.

The project has four modules:

| module | file | what it holds |
|---|---|---|
| `Text` | `text.dfy` | `join`, the anchored suffix regular expressions, character counting |
| `Tables` | `tables.dfy` | the column lists, the `table` builder as a method with a loop, `CREATE` |
| `Queries` | `queries.dfy` | `Statement`, `repeat`, `insert`, and `select` as a method with a loop |
| `Local` | `local.dfy` | the `Prepared` class, the schema script, the text and arguments `batch` composes |

The central properties:

- The arguments of `insert` cut back, column-list width at a time, into the rows'
  values (a round trip).
- Every statement built here, and every batch of them, binds exactly one value per
  `?` placeholder.
- The `select` loop and the `table` loop compute exactly their specification functions.
- Every foreign key in `CREATE` names a table created before it.
- A prepared statement's buffer grows by exactly the bound values.

## Model

| member | source | states |
|---|---|---|
| `Text.Join` | src/queries.ts:9 | `Array.prototype.join`: the elements with the separator between neighbours, empty for no element; its properties are `Text.JoinOccurrences`, `Text.JoinStartsWithFirst` and `Text.JoinAbsent`. |
| `Text.Copies` | src/queries.ts:9 | `Array.from({ length: n }, () => s)`: exactly `n` elements, each of them `s`. |
| `Text.TrimSuffix` | src/queries.ts:37 | Removing an anchored suffix: when the text ends with the suffix, the result plus the suffix is the text; otherwise the text is unchanged. |
| `Text.JoinOccurrences` | src/queries.ts:9 | A join holds every character of its elements, plus one separator's worth per gap between elements. |
| `Text.JoinStartsWithFirst` | src/local.ts:24 | A nonempty join starts with its first element. |
| `Text.TotalCopies` | src/queries.ts:9 | `n` copies of a text hold `n` times its characters. |
| `Text.JoinAbsent` | src/queries.ts:22 | A character absent from every element and from the separator is absent from the join. |
| `Queries.Repeat` | src/queries.ts:8-9 | `repeat(s, n)`: the `", "` join of `n` copies of `s`; stated by `Queries.RepeatUnfold` and `Queries.RepeatPlaceholders`. |
| `Queries.RepeatUnfold` | src/queries.ts:8-9 | `repeat` of zero copies is empty and of one copy is the text itself. Each further copy adds `", "` and the text. |
| `Queries.RepeatPlaceholders` | src/queries.ts:8-9 | `repeat(s, n)` holds `n` times the placeholders of `s`, since the separator holds none. |
| `Queries.Without` | src/queries.ts:17-19 | The filter keeps a key exactly when it is in the input and not excluded, and never lengthens the list. |
| `Queries.WithoutConcat` | src/queries.ts:17-19 | Filtering distributes over concatenation, so order is kept. |
| `Queries.WithoutNone` | src/queries.ts:17-19 | Filtering a list with no excluded key leaves it unchanged. |
| `Queries.InsertKeys` | src/queries.ts:17-19 | The table's property keys with `id`, `created` and `updated` filtered out; stated by `Queries.InsertKeysShape`. |
| `Queries.InsertKeysShape` | src/queries.ts:17-19 | An insert's columns are exactly `note` followed by the table's own domain columns. A key is a column iff it is a property and not generated. |
| `Queries.Field` | src/queries.ts:25 | A value is bound as null iff its key is absent from the row or its value is null; a present key binds its own value. |
| `Queries.RowArgs` | src/queries.ts:25 | One row's values, one per key in key order, each as `Queries.Field` binds it. |
| `Queries.Grid` | src/queries.ts:25 | Every row's values, row by row: the layout the arguments are compared against. |
| `Queries.Args` | src/queries.ts:25 | The `flatMap` of the rows' values; stated by `Queries.ArgsLength` and `Queries.ArgsChunks`. |
| `Queries.Chunks` | src/queries.ts:25 | Consecutive pieces of a fixed width, the inverse view `Queries.ArgsChunks` uses to recover the rows. |
| `Queries.ArgsLength` | src/queries.ts:25 | The flattened arguments number rows times columns. |
| `Queries.ArgsChunks` | src/queries.ts:25 | Cutting the flattened arguments into column-width chunks gives back each row's values in column order. |
| `Queries.RowPlaceholders` | src/queries.ts:20 | `(${repeat("?", width)})`, one group per row; stated by `Queries.GroupPlaceholders`. |
| `Queries.InsertHead` | src/queries.ts:22 | `INSERT INTO <table> (<columns joined by ", ">) VALUES `; stated by `Queries.InsertHeadUnbound`. |
| `Queries.Insert` | src/queries.ts:10-27 | `insert(into, rows)`: the head followed by one group per row, with the rows' values as arguments; stated by `Queries.InsertArgsLength`, `Queries.InsertRowsRoundTrip`, `Queries.InsertBalanced` and `Queries.InsertUnterminated`. |
| `Queries.InsertArgsLength` | src/queries.ts:17-25 | An insert binds `rows × (1 + domain columns)` values. |
| `Queries.InsertRowsRoundTrip` | src/queries.ts:17-25 | An insert's arguments, cut into chunks of the column list's width, are exactly the rows' values: chunk `i` is row `i`. |
| `Queries.InsertNoteIsNull` | src/queries.ts:12-25 | A row without `note` (which the row type of `insert` omits) binds `null` as its first value. |
| `Queries.GroupPlaceholders` | src/queries.ts:20 | The group `(?, ..., ?)` for `w` columns holds `w` placeholders. |
| `Queries.InsertHeadUnbound` | src/queries.ts:22 | `INSERT INTO table (columns) VALUES` holds no placeholder. |
| `Queries.InsertBalanced` | src/queries.ts:20-25 | An insert's text has exactly as many placeholders as it binds arguments, for every table and every list of rows. |
| `Queries.InsertUnterminated` | src/queries.ts:22-24 | An insert never ends with `;`, for any list of rows, so a batch adds the terminator; with at least one row it ends with `)`. |
| `Queries.Qualify` | src/queries.ts:35 | `table.key`, the term the loop appends for a true flag. |
| `Queries.Selected` | src/queries.ts:32-36 | The qualified keys whose flag is true, in mask order; stated by `Queries.SelectedExactly` and `Queries.SelectedOrder`. |
| `Queries.SelectSql` | src/queries.ts:37 | `SELECT <selected joined by ", "> FROM <table>`: the specification `Queries.Select` is proved against. |
| `Queries.Terms` | src/queries.ts:33-36 | Each term followed by `", "`: what the loop accumulates in `selected`; stated by `Queries.TermsJoin` and `Queries.TrimTerms`. |
| `Queries.TermsJoin` | src/queries.ts:33-36 | What the loop accumulates is the join of the selected terms with a trailing `", "`. |
| `Queries.TrimTerms` | src/queries.ts:37 | Trimming the trailing `", "` from the accumulation gives exactly the `", "` join of the terms. |
| `Queries.Select` | src/queries.ts:28-38 | The loop computes `SELECT` with the `", "` join of `table.key` over the true flags in mask order, then `FROM table`. |
| `Queries.SelectedExactly` | src/queries.ts:34-35 | A term is selected iff some mask entry with a true flag qualifies to it. |
| `Queries.SelectedOrder` | src/queries.ts:32-36 | Selection follows mask order: the selection for a concatenated mask is the concatenation of the selections. |
| `Queries.SelectNone` | src/queries.ts:33-37 | With no true flag nothing is selected, and the text is `SELECT  FROM table`. |
| `Queries.SelectNoPlaceholders` | src/queries.ts:37 | A select whose keys hold no `?` has no placeholder, which matches its binding nothing. |
| `Queries.ByIdPlaceholders` | src/router.ts:37 | The filter `WHERE person.id = ?;` holds exactly one placeholder. |
| `Queries.FilteredSelectBalanced` | src/router.ts:36-39 | A select followed by a filter clause binds exactly its arguments when the filter holds one placeholder per argument. |
| `Queries.PersonByIdBalanced` | src/router.ts:28-39 | The `GET /v1/person/#id` query, all six person columns filtered by id, binds exactly its one argument. |
| `Tables.Name` | src/tables.ts:88-94 | The key of each table in `TABLES`, which is also its SQL name; stated by `Tables.NamesDistinct`. |
| `Tables.Domain` | src/tables.ts:62-87 | Each table's own columns after the metadata, in declaration order. |
| `Tables.Properties` | src/tables.ts:56-87 | The metadata keys `id, created, updated, note` followed by the table's own columns; stated by `Tables.PropertiesShape`. |
| `Tables.Tables` | src/tables.ts:88-94 | `TABLES` has exactly the five table names as keys, each mapped to the metadata keys followed by its own columns. |
| `Tables.NamesDistinct` | src/tables.ts:88-94 | Distinct tables have distinct names. |
| `Tables.PropertiesShape` | src/tables.ts:56-87 | Every table's keys begin with `id, created, updated, note`. They have no duplicate, and no domain column reuses a metadata key. |
| `Tables.Header` | src/tables.ts:6-10 | `CREATE TABLE IF NOT EXISTS <name> (` and the four metadata column definitions, whitespace included. |
| `Tables.ColumnSql` | src/tables.ts:13-17 | A plain column verbatim; a `[column, target]` pair as `column INTEGER NOT NULL REFERENCES target(id) DEFERRABLE INITIALLY DEFERRED`. |
| `Tables.Opening` | src/tables.ts:6-18 | The header followed by each template part and its column's definition; stated by `Tables.OpeningStartsWithHeader`. |
| `Tables.Trigger` | src/tables.ts:21-27 | The `update_timestamp_<name>` trigger that sets `updated` after an update of the watched columns. |
| `Tables.TriggerColumns` | src/tables.ts:23 | The trigger watches each template column's name, in order, for plain columns and foreign keys alike. |
| `Tables.IndexStatement` | src/tables.ts:30-32 | `CREATE UNIQUE INDEX IF NOT EXISTS <cols joined by _>_<name> ON <name> (<cols joined by ", ">);`. |
| `Tables.IndexLines` | src/tables.ts:29-32 | One unique-index statement per index list, in order. |
| `Tables.IndexStatements` | src/tables.ts:28-34 | A table without indexes gets no index text. |
| `Tables.Closing` | src/tables.ts:19-34 | The last template part without its trailing comma, `)`, the trigger and the index statements; stated by `Tables.TrimOneComma`. |
| `Tables.TableDdl` | src/tables.ts:3-35 | The opening followed by the closing: the specification `Tables.Table` is proved against; stated by `Tables.DdlFraming`. |
| `Tables.Table` | src/tables.ts:3-35 | The loop appends each template part followed by its column's definition, then the closing text. The result is exactly the specified DDL. |
| `Tables.OpeningStartsWithHeader` | src/tables.ts:6-18 | Whatever the columns, the text built so far starts with the `CREATE TABLE` header and its metadata columns. |
| `Tables.DdlFraming` | src/tables.ts:6-34 | Every table's DDL starts with its header and ends with its index statements. |
| `Tables.TrimOneComma` | src/tables.ts:19 | Only the one trailing comma of the last template part is removed. |
| `Tables.IndexStatementsLines` | src/tables.ts:28-33 | With line-free names, `k` index statements are separated by exactly `k - 1` line breaks. |
| `Tables.Parts` | src/tables.ts:38-54 | Each table's template has one more literal part than it has columns. |
| `Tables.Columns` | src/tables.ts:38-54 | Each table's template columns: plain names, or `[column, target]` foreign keys. |
| `Tables.Indexes` | src/tables.ts:38-51 | Each table's unique index lists, as passed to `table`. |
| `Tables.Ddl` | src/tables.ts:38-54 | A table's DDL, its template applied to its parts and columns; stated by `Tables.CreateNamesTables` and `Tables.TriggerWatchesDomain`. |
| `Tables.Create` | src/tables.ts:36-55 | `CREATE` has six entries: the foreign-keys pragma, then the DDL of person, course, family, signup and record, in that order. |
| `Tables.CreateNamesTables` | src/tables.ts:36-55 | Entry `i + 1` of `CREATE` creates the `i`-th table of that order. |
| `Tables.TriggerWatchesDomain` | src/tables.ts:21-24 | The trigger of each table watches exactly its domain columns as listed in `TABLES`. |
| `Tables.ReferencesPrecede` | src/tables.ts:44-52 | Every foreign key of a table in `CREATE` targets a table created earlier in the list. |
| `Local.Prepared.constructor` | src/local.ts:8-11 | A new prepared statement holds its query and an empty buffer. |
| `Local.Prepared.Bind` | src/local.ts:12-15 | Binding appends the values to the buffer, in order, and returns the same statement. |
| `Local.Prepare` | src/local.ts:26-28 | Preparing a query gives a fresh statement with nothing bound. |
| `Local.BindChain` | src/local.ts:12-15 | Chained binds accumulate: the earlier values first, then the first call's, then the second's. |
| `Local.SchemaScript` | src/local.ts:24 | `CREATE.join("\n\n")`, the script executed at start-up; stated by `Local.SchemaScriptStartsWithPragma`. |
| `Local.SchemaScriptStartsWithPragma` | src/local.ts:24 | The script run at start-up switches foreign keys on before it creates any table. |
| `Local.Terminate` | src/local.ts:40 | A terminated statement ends with `;`. It is unchanged iff it already ended with one, and otherwise gains exactly one. |
| `Local.TerminateIdempotent` | src/local.ts:40 | Terminating twice is terminating once. |
| `Local.TerminatePlaceholders` | src/local.ts:40 | Terminating adds no placeholder. |
| `Local.TerminatedAll` | src/local.ts:40 | Each statement of a batch becomes its terminated text, in order. |
| `Local.AllArgs` | src/local.ts:42 | The statements' arguments, one statement after another; stated by `Local.BatchArgsConcat` and `Local.BatchArgsSingle`. |
| `Local.Batch` | src/local.ts:37-44 | The statement `batch` composes: `BEGIN;`, the terminated statements one per line, `END;`, with all arguments; stated by `Local.BatchBalanced`. |
| `Local.BatchArgsConcat` | src/local.ts:42 | A batch's arguments follow its statements' order: batching two lists lays out the first list's arguments before the second's. |
| `Local.BatchArgsSingle` | src/local.ts:42 | A batch of one statement binds exactly that statement's arguments. |
| `Local.BalancedTotals` | src/local.ts:40-42 | When each statement is balanced, the placeholders of the terminated texts add up to the number of batch arguments. |
| `Local.BatchBalanced` | src/local.ts:38-42 | A batch of balanced statements is balanced: `BEGIN;`, the line breaks and `END;` add no placeholder. |
| `Local.BatchLinesTerminated` | src/local.ts:40 | Every statement's terminated text in a batch ends with `;`, and a statement that already ended with one is kept as it is. |

## Left out

- `src/router.ts`, `src/types.ts`, `src/sql.ts` and `src/env.ts` are not part of this model. The only route modelled is the text and arguments of `GET /v1/person/#id`.
- `Prepared.run`, `Sqlite.exec`, the `DatabaseSync` handle, `Date.now`, the module-level `local` instance and its `fetch` export are left out: they call node:sqlite, the clock and the HTTP server. The statement handle is represented by the SQL text it was prepared from.
- `Sqlite` constructor: only the script it executes (`SchemaScript`) is modelled, not opening the database or executing the script.
- `Sqlite.batch` composes a statement and then discards it without running anything. The model is the composed value (`Local.Batch`), which leaves the driver's lack of effect aside.
- `Sqlite.batch` reads `.sql` and `.args` from its inputs. The model takes them as `Statement` values, the shape the builders produce.
- Schema validation (`int`, `str`, `nil`, `obj`, with their minimum, maximum, length, pattern and date-time constraints) is left out. Only the property keys and their order are modelled.
- `Queries.Value`: numbers are modelled as mathematical integers, so floating-point values are not modelled. `bigint` is a separate constructor, which only `bind` accepts in the source; `Statement.args` does not exclude it at the type level.
- `Queries.Select`: the column mask is a sequence of (key, flag) pairs in `Object.keys` order. The reordering JavaScript applies to integer-like keys is not modelled, and an undefined flag counts as false.
- The regular expressions are modelled as suffix predicates. `/,$/` and `/, $/` remove one anchored suffix, and the lookbehind in `batch` appends `;` unless the text ends with one.
- `Tables.Create` is stated entry by entry in terms of `Ddl`. There is no lemma spelling out a whole table's DDL character by character: such concrete-text lemmas are too costly for the verifier.
- `select` returns a plain string, and the code has no join combinators; the model follows the code.
- SQLite's execution of the statements is not modelled, including its `NOT NULL` check. So the model does not decide what SQLite does with the null `insert` binds for a row without `note` (`Queries.InsertNoteIsNull`), even though the DDL declares `note TEXT NOT NULL DEFAULT ''`.
