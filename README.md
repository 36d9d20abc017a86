# DuckDB/Parquet storage handler: a verified model

This project models the SQL-fragment compiler and the DuckDB/Parquet storage handler of a
Dagster quick-start project (`src/dagster_quickstart/io_manager.py`).

An asset returns a `SQL` fragment: a template string plus keyword bindings. `sql_to_string`
flattens a fragment tree into one statement:

- every binding is turned into replacement text, in keyword order;
- then Python's `string.Template.safe_substitute` makes one pass over the template.

The storage handler `DuckDBParquetTypeHandler` does three things:

- it derives a staging table name and an export URL from the run context;
- `handle_output` sends four statements to the DuckDB connection: create the table, export it
  to Parquet, count its rows, describe its columns. It then attaches row-count and
  column-schema metadata to the output;
- `load_input` returns a fragment that reads the exported files back.

The project has three modules:

- `Template` (`Template.dfy`): `safe_substitute`, split into a scanner (template to tokens)
  and an expansion (tokens to text). The scanner follows the delimiter rules of Python's
  `string.Template`: `$$`, `$name`, `${name}`, and a stray `$`.
- `SqlFragment` (`SqlFragment.dfy`): the fragment datatype and `Compile`, the recursive
  specification of `sql_to_string`. `SqlToString` is the source's loop over the bindings,
  proved equal to `Compile`. This module also holds Python's `str` of an int or a bool.
- `Storage` (`Storage.dfy`): identifiers, table names and export URLs; the statement
  fragments and their compiled texts; the metadata; `load_input`; and `handle_output`.
  - `Connection` is a class that logs the statements it executes. It raises on a set of
    statements fixed when it is made.
  - `OutputContext` is a class with the list of metadata records added to it.
  - `HandleOutput` is a method on those two objects. It is proved against the specification
    function `HandleOutputEffect`.

`sqlescape`, from a foreign library, is the parameter `esc: string -> string` throughout.
Nothing is assumed about it. The bucket and prefix that the source reads from the environment
are the `Config` parameter. The rows returned by the count and `DESCRIBE` queries are
parameters of `HandleOutput`.

## Model

| member | source | states |
|---|---|---|
| Template.NameLength | src/dagster_quickstart/io_manager.py:30 | a `$name` placeholder's name is the longest identifier after the `$`: it is a well-formed name and no name character follows it |
| Template.ScanRoundTrip | src/dagster_quickstart/io_manager.py:30 | `Scan`, the template pattern's left-to-right match, loses nothing: writing the tokens back gives the template |
| Template.SubstituteNamed | src/dagster_quickstart/io_manager.py:30 | `$name` becomes the bound text as it is, even when it holds a `$`, or stays verbatim when unbound; scanning goes on after the name |
| Template.SubstituteBraced | src/dagster_quickstart/io_manager.py:30 | `${name}` becomes the bound text, or stays verbatim when unbound |
| Template.SubstituteEscaped | src/dagster_quickstart/io_manager.py:30 | `$$` becomes a single `$` |
| Template.SubstituteStray | src/dagster_quickstart/io_manager.py:30 | a `$` that starts no valid form is kept as it is |
| Template.SubstituteLiteral | src/dagster_quickstart/io_manager.py:30 | text without a delimiter is copied unchanged |
| Template.UnusedBindingsIgnored | src/dagster_quickstart/io_manager.py:30 | two mappings that agree on the names the template refers to give the same result, so a binding no placeholder names has no effect |
| Template.UnboundPassThrough | src/dagster_quickstart/io_manager.py:30 | a template with no `$$` and no bound placeholder comes out unchanged |
| Template.SubstituteFourForms | src/dagster_quickstart/io_manager.py:30 | `SafeSubstitute` on a template holding all four forms: a bound `$name` and a bound `${name}` are replaced, `$$` becomes `$`, literal text is copied, and a `$` before a character that starts no name is kept |
| Template.SubstituteExample | src/dagster_quickstart/io_manager.py:30 | `SafeSubstitute` of `$a$$b${c}$1` with `a` bound to `X` and `c` to `Y` is `X$bY$1` |
| SqlFragment.NatToString | src/dagster_quickstart/io_manager.py:24-25 | the decimal text of a natural number is non-empty, all digits, and has no leading zero: it starts with `0` only for 0, whose text is exactly `0` |
| SqlFragment.IntToStringRoundTrip | src/dagster_quickstart/io_manager.py:24-25 | `IntToString`, Python's `str` of an int, loses nothing: reading the text back gives the int, sign included |
| SqlFragment.BoolTextIsNotIntText | src/dagster_quickstart/io_manager.py:24-25 | `BoolToString`, Python's `str` of a bool, gives `True` or `False`, which is never the text of an int, although a bool is an int in Python |
| SqlFragment.SqlToString | src/dagster_quickstart/io_manager.py:17-30 | the loop that fills the replacements dictionary and recurses into nested fragments, followed by one substitution, computes `Compile` |
| SqlFragment.CompileOkIff | src/dagster_quickstart/io_manager.py:19-29 | compilation succeeds exactly when every binding, at every depth, is a fragment, string, int, bool or `None` |
| SqlFragment.FirstFailureRaises | src/dagster_quickstart/io_manager.py:19-29 | the first unsupported binding in keyword order decides the error: `Invalid type for <key>` for its own key, or the nested fragment's own error |
| SqlFragment.ErrorIgnoresTemplate | src/dagster_quickstart/io_manager.py:18-30 | a failing binding list fails with the same error under any template, even when no placeholder names the key |
| SqlFragment.ReplacementsKeys | src/dagster_quickstart/io_manager.py:18-29 | `Replacements` after the first `n` bindings holds exactly the keys of those bindings |
| SqlFragment.ReplacementsContents | src/dagster_quickstart/io_manager.py:18-29 | in `Replacements` after the first `n` bindings, each key maps to the text of the last of those bindings with that key |
| SqlFragment.CompiledReplacements | src/dagster_quickstart/io_manager.py:18-30 | `Compile` of a fragment that compiles is its template substituted with a map whose keys are exactly the binding keys; the last binding of each key supplies its text: parenthesised compiled text, a quoted escaped string, `str` of an int or bool, or `null`, as `Render` gives for each binding kind |
| SqlFragment.NestedFragmentInserted | src/dagster_quickstart/io_manager.py:20-30 | a nested fragment appears in its parent as `(` + its own compiled text + `)` at the placeholder's place, and is not scanned again |
| Storage.PickedIdentifierDecides | src/dagster_quickstart/io_manager.py:34-38 | `Identifier` picks the asset identifier when there is an asset key and the run identifier otherwise; the identifier it does not pick affects neither the table name nor the URL |
| Storage.TableNameSegments | src/dagster_quickstart/io_manager.py:40-45 | `TableName` keeps its segments: splitting it at `_` gives the identifier, without the last segment exactly when the run has asset partitions, when no segment holds a `_` |
| Storage.TableNamesCollide | src/dagster_quickstart/io_manager.py:40-45 | when a segment holds a `_`, two different identifiers can give one table name |
| Storage.S3UrlSegments | src/dagster_quickstart/io_manager.py:47-50 | `S3Url` starts with the export root, the bucket, `/` and the prefix; splitting the rest at `/` gives every identifier segment, the partition one included, when no segment holds a `/` |
| Storage.PartitionSegmentPlacement | src/dagster_quickstart/io_manager.py:40-50 | when partitioned, the table name joins all segments but the last with `_`; the URL joins the same segments with `/` and then appends `/` and the partition segment |
| Storage.PartitionsShareTableName | src/dagster_quickstart/io_manager.py:40-50 | two partitions of one asset share the table name, and their export URLs are equal exactly when their identifiers are |
| Storage.CreateCompiles | src/dagster_quickstart/io_manager.py:63-69 | the table statement is `CREATE OR REPLACE TABLE` with the quoted table name, then `AS` and the parenthesised compiled select; it fails exactly as the select does |
| Storage.CopyCompiles | src/dagster_quickstart/io_manager.py:77-85 | the export statement copies the quoted table to the quoted export URL with the Parquet/zstd/256m/overwrite options |
| Storage.CountCompiles | src/dagster_quickstart/io_manager.py:87-94 | the count statement is `SELECT count(*) FROM` the quoted table |
| Storage.DescribeCompiles | src/dagster_quickstart/io_manager.py:96-103 | the describe statement is `DESCRIBE` the quoted table |
| Storage.LoadCompiles | src/dagster_quickstart/io_manager.py:127-128 | `LoadInput`, the fragment `load_input` returns, compiles to `read_parquet` of the quoted export URL followed by `/*` |
| Storage.LoadReadsExport | src/dagster_quickstart/io_manager.py:127-128 | for the same identifier, `LoadInput` has one binding, `url`: the URL that the export statement writes to, followed by `/*` |
| Storage.DownstreamReadsUpstreamExports | src/dagster_quickstart/defs/assets.py:26-45 | a downstream select that binds two loaded upstream fragments compiles to a template in which each placeholder is replaced by a parenthesised `read_parquet` of that upstream's export |
| Storage.Columns | src/dagster_quickstart/io_manager.py:114-122 | one (name, type) column per `DESCRIBE` row, from its first two fields, in row order |
| Storage.BuildMetadata | src/dagster_quickstart/io_manager.py:105-125 | metadata is built exactly when the count row is non-empty and every `DESCRIBE` row has at least two fields; its key is the partition row count when there is a partition key, otherwise the row count; its count is the count row's first field; it has the column schema |
| Storage.NothingIssuedBeforeTheSelectCompiles | src/dagster_quickstart/io_manager.py:53-69 | in `HandleOutputEffect`, no output issues nothing; an output that is not a `SQL`, or a select that does not compile, fails before any statement is issued |
| Storage.StatementsStopAtFirstFailure | src/dagster_quickstart/io_manager.py:63-103 | with a select that compiles, the four statements are issued in order, up to and including the first one the engine fails on |
| Storage.QueryRun | src/dagster_quickstart/io_manager.py:63-125 | `HandleOutputEffect` with a select that compiles: on an engine failure, the statements up to that one and no metadata; when all four run, one metadata record or the index error |
| Storage.SuccessfulRun | src/dagster_quickstart/io_manager.py:63-125 | a run that ends well issued exactly the four statements, all naming the same quoted table, and added one record with the right key, count and columns |
| Storage.Connection.Execute | src/dagster_quickstart/io_manager.py:73-75 | executing a statement appends it to the log, and the engine raises exactly on the statements it rejects |
| Storage.OutputContext.AddOutputMetadata | src/dagster_quickstart/io_manager.py:105-125 | adding metadata appends one record to the context |
| Storage.ExecuteFragment | src/dagster_quickstart/io_manager.py:63-103 | one step compiles a fragment and executes the result; it has the effect `Issue` gives, on the log and on the outcome |
| Storage.HandleOutput | src/dagster_quickstart/io_manager.py:52-125 | the connection's log grows by exactly the statements of `HandleOutputEffect`, the context by exactly its metadata, and the outcome is its outcome |

## Left out

- Float bindings (`io_manager.py:24`): `str` of a float is floating-point formatting, so the binding type has no float variant.
- SqlFragment.IntToString: CPython refuses `str` of an int with more than 4300 digits by default, since 3.11 and in the 3.7-3.10 security releases. The limit can be changed with `sys.set_int_max_str_digits`, so it belongs to the interpreter's settings. The model renders an int of any size, so such an int compiles here while the interpreter raises `ValueError`.
- SqlFragment.Compile: `sql_to_string` calls itself once per nesting level (`io_manager.py:21`), so in CPython a fragment nested deeper than the interpreter's recursion limit (1000 frames by default, set with `sys.setrecursionlimit`) raises `RecursionError`. `Compile` and `SqlToString` compile fragments of any depth and return `Ok` for them.
- `sqlescape`: a foreign library. It is a function parameter, and no escaping rule is assumed.
- Python keyword arguments have distinct keys. The model's binding list allows a repeated key, and the last one wins, as the dictionary assignment of the loop would.
- The `EnvVar` lookups of the bucket and prefix (`io_manager.py:48-49`): these are the `Config` parameter. A missing variable is not modelled.
- The logger (`io_manager.py:61,71`): it has no effect on the result.
- DuckDB itself: no tables, Parquet files, S3 writes or file sharding. The connection records the statements it receives. It raises on a set of statements fixed when it is made. The count and `DESCRIBE` results are parameters.
- The count query always returns one row. An empty count row stands for a short result and gives the same index error as a short `DESCRIBE` row. The `TypeError` that a `None` from `fetchone` would cause is not modelled separately.
- Dagster's `TableMetadataSet`, `MetadataValue`, `TableSchema` and `TableColumn` wrappers: the metadata is the record `Metadata`.
- The text of the error for an output that is not a `SQL`, which includes that object's `repr`: it is the error value `InvalidOutputType`.
- The output type check: the asset's output is the three-way `Output` value. It is none, a `SQL` fragment, or anything else.
- Dagster's contexts (`has_asset_key`, `get_asset_identifier`, `get_identifier`, `has_asset_partitions`, `has_partition_key`): they are the fields of `ContextInfo`.
- The unused `table_slice` and `connection` parameters of `load_input`, and the registration plumbing (`supported_types`, `build_duckdb_io_manager`, `DuckDBParquetIOManager`, `io_manager.py:130-149`).
- `defs/resources.py` (configuration wiring) is not part of this model. The SQL texts of `defs/assets.py` are not modelled either; only the shape of their nested bindings appears, in `Storage.DownstreamReadsUpstreamExports`.
