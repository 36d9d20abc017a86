/** The storage handler `DuckDBParquetTypeHandler`: table and export names
    derived from the run context, the four statements `handle_output` sends to
    the DuckDB connection, the metadata it records, and the fragment
    `load_input` hands to downstream assets.

    The connection is an object that records the statements it is given, and
    fails on the statements of a set fixed when it is made; query results are
    parameters. The bucket and prefix, read from the environment by the
    source, are a `Config` parameter. */
module Storage {
  import opened Template
  import opened SqlFragment

  /** What the handler reads from Dagster's output or input context. */
  datatype ContextInfo = ContextInfo(
    hasAssetKey: bool,
    assetIdentifier: seq<string>,   // context.get_asset_identifier()
    identifier: seq<string>,        // context.get_identifier()
    hasAssetPartitions: bool,
    hasPartitionKey: bool)

  /** The `S3_BUCKET_NAME` and `S3_PREFIX` settings. */
  datatype Config = Config(bucket: string, prefix: string)

  /** The local directory under which every export is written. */
  const ExportRoot := "src/dagster_quickstart/out/"

  /** Python's `sep.join(parts)`. */
  function Join(sep: string, parts: seq<string>): string {
    if |parts| == 0 then ""
    else if |parts| == 1 then parts[0]
    else parts[0] + sep + Join(sep, parts[1..])
  }

  /** `_get_identifier`: the asset identifier when there is an asset key. */
  function Identifier(c: ContextInfo): seq<string> {
    if c.hasAssetKey then c.assetIdentifier else c.identifier
  }

  /** `asset_key[:-1]`: all but the last segment (empty stays empty). */
  function DropLast(id: seq<string>): seq<string> {
    if |id| == 0 then id else id[..|id| - 1]
  }

  /** `_get_table_name`: the segments joined by `_`, without the partition
      segment when the run has asset partitions. */
  function TableName(c: ContextInfo): string {
    Join("_", if c.hasAssetPartitions then DropLast(Identifier(c)) else Identifier(c))
  }

  /** `_get_s3_url`: every segment, the partition one included, joined by `/`
      under the export root, the bucket and the prefix. */
  function S3Url(c: ContextInfo, cfg: Config): string {
    ExportRoot + cfg.bucket + "/" + cfg.prefix + Join("/", Identifier(c))
  }

  lemma {:induction false} JoinSnoc(sep: string, parts: seq<string>, last: string)
    requires |parts| > 0
    ensures Join(sep, parts + [last]) == Join(sep, parts) + sep + last
  {
    if |parts| == 1 {
      assert parts + [last] == [parts[0], last];
    } else {
      assert (parts + [last])[1..] == parts[1..] + [last];
      JoinSnoc(sep, parts[1..], last);
    }
  }

  /** `_` between the kept segments of the table name, `/` between all the
      segments of the export URL: with a partitioned run the URL carries the
      partition segment after the segments the table name is made of. */
  lemma PartitionSegmentPlacement(c: ContextInfo, cfg: Config)
    requires c.hasAssetPartitions && |Identifier(c)| >= 2
    ensures var id := Identifier(c);
      TableName(c) == Join("_", id[..|id| - 1]) &&
      S3Url(c, cfg) == ExportRoot + cfg.bucket + "/" + cfg.prefix + Join("/", id[..|id| - 1]) + "/" + id[|id| - 1]
  {
    var id := Identifier(c);
    assert id == id[..|id| - 1] + [id[|id| - 1]];
    JoinSnoc("/", id[..|id| - 1], id[|id| - 1]);
  }

  /** Two partitions of one asset share the staging table name, and their export
      URLs differ exactly when the partition segments do. */
  lemma PartitionsShareTableName(c1: ContextInfo, c2: ContextInfo, cfg: Config)
    requires c1.hasAssetPartitions && c2.hasAssetPartitions
    requires |Identifier(c1)| == |Identifier(c2)| > 0
    requires DropLast(Identifier(c1)) == DropLast(Identifier(c2))
    ensures TableName(c1) == TableName(c2)
    ensures S3Url(c1, cfg) == S3Url(c2, cfg) <==> Identifier(c1) == Identifier(c2)
  {
    var id1, id2 := Identifier(c1), Identifier(c2);
    var n := |id1|;
    var head := id1[..n - 1];
    assert id1 == head + [id1[n - 1]] && id2 == head + [id2[n - 1]];
    var root := ExportRoot + cfg.bucket + "/" + cfg.prefix;
    var j1, j2 := Join("/", id1), Join("/", id2);
    if n == 1 {
      assert j1 == id1[0] && j2 == id2[0];
    } else {
      JoinSnoc("/", head, id1[n - 1]);
      JoinSnoc("/", head, id2[n - 1]);
      if j1 == j2 {
        var p := Join("/", head) + "/";
        assert j1 == p + id1[n - 1] && j2 == p + id2[n - 1];
        assert id1[n - 1] == j1[|p|..] && id2[n - 1] == j2[|p|..];
      }
    }
    if S3Url(c1, cfg) == S3Url(c2, cfg) {
      assert S3Url(c1, cfg) == root + j1 && S3Url(c2, cfg) == root + j2;
      assert j1 == S3Url(c1, cfg)[|root|..] && j2 == S3Url(c2, cfg)[|root|..];
    }
  }

  /** Only the identifier `_get_identifier` picks matters: the asset identifier
      when there is an asset key, the run identifier otherwise. Two contexts that
      agree on the picked one and on partitioning get the same table name and URL. */
  lemma PickedIdentifierDecides(c1: ContextInfo, c2: ContextInfo, cfg: Config)
    requires c1.hasAssetKey == c2.hasAssetKey && c1.hasAssetPartitions == c2.hasAssetPartitions
    requires c1.hasAssetKey ==> c1.assetIdentifier == c2.assetIdentifier
    requires !c1.hasAssetKey ==> c1.identifier == c2.identifier
    ensures Identifier(c1) == Identifier(c2)
    ensures TableName(c1) == TableName(c2) && S3Url(c1, cfg) == S3Url(c2, cfg)
  {
  }

  /** Python's `s.split(sep)` for a one-character separator. */
  function Split(sep: char, s: string): (parts: seq<string>)
    ensures |parts| > 0
  {
    if s == [] then [""]
    else
      var r := Split(sep, s[1..]);
      if s[0] == sep then [""] + r else [[s[0]] + r[0]] + r[1..]
  }

  lemma {:induction false} SplitAfterWord(sep: char, w: string, rest: string)
    requires sep !in w
    ensures Split(sep, w + rest) == [w + Split(sep, rest)[0]] + Split(sep, rest)[1..]
  {
    var r := Split(sep, rest);
    if w == [] {
      assert w + rest == rest;
      assert w + r[0] == r[0];
      assert r == [r[0]] + r[1..];
    } else {
      assert (w + rest)[1..] == w[1..] + rest;
      SplitAfterWord(sep, w[1..], rest);
      assert [w[0]] + (w[1..] + Split(sep, rest)[0]) == w + Split(sep, rest)[0];
    }
  }

  /** Joining segments that do not contain the separator and splitting the result
      gives the segments back. */
  lemma {:induction false} SplitJoin(sep: char, parts: seq<string>)
    requires |parts| > 0
    requires forall i :: 0 <= i < |parts| ==> sep !in parts[i]
    ensures Split(sep, Join([sep], parts)) == parts
  {
    if |parts| == 1 {
      assert parts[0] == parts[0] + "";
      SplitAfterWord(sep, parts[0], "");
    } else {
      var tail := Join([sep], parts[1..]);
      SplitJoin(sep, parts[1..]);
      assert Join([sep], parts) == parts[0] + ([sep] + tail);
      SplitAfterWord(sep, parts[0], [sep] + tail);
      assert ([sep] + tail)[1..] == tail;
      assert parts[0] + "" == parts[0];
      assert parts == [parts[0]] + parts[1..];
    }
  }

  /** The table name keeps the segments it is made of: splitting it at `_` gives
      the identifier, without its last segment when partitioned, as long as no
      segment holds a `_` itself (`TableNamesCollide` shows what happens when one does). */
  lemma TableNameSegments(c: ContextInfo)
    requires |Identifier(c)| > (if c.hasAssetPartitions then 1 else 0)
    requires forall i :: 0 <= i < |Identifier(c)| ==> '_' !in Identifier(c)[i]
    ensures c.hasAssetPartitions ==> Split('_', TableName(c)) == Identifier(c)[..|Identifier(c)| - 1]
    ensures !c.hasAssetPartitions ==> Split('_', TableName(c)) == Identifier(c)
  {
    var id := Identifier(c);
    if c.hasAssetPartitions {
      var kept := id[..|id| - 1];
      assert forall i :: 0 <= i < |kept| ==> kept[i] == id[i];
      SplitJoin('_', kept);
    } else {
      SplitJoin('_', id);
    }
  }

  /** Segments that hold a `_` can give two different assets one staging table. */
  lemma TableNamesCollide(c1: ContextInfo, c2: ContextInfo)
    requires !c1.hasAssetPartitions && !c2.hasAssetPartitions
    requires Identifier(c1) == ["a_b"] && Identifier(c2) == ["a", "b"]
    ensures Identifier(c1) != Identifier(c2) && TableName(c1) == TableName(c2)
  {
    assert Join("_", ["a", "b"]) == "a" + "_" + "b";
  }

  /** The export URL keeps every segment, the partition one included: after the
      export root, bucket and prefix, splitting at `/` gives the whole identifier,
      as long as no segment holds a `/` itself. */
  lemma S3UrlSegments(c: ContextInfo, cfg: Config)
    requires |Identifier(c)| > 0
    requires forall i :: 0 <= i < |Identifier(c)| ==> '/' !in Identifier(c)[i]
    ensures var root := ExportRoot + cfg.bucket + "/" + cfg.prefix;
      |root| <= |S3Url(c, cfg)| && S3Url(c, cfg)[..|root|] == root &&
      Split('/', S3Url(c, cfg)[|root|..]) == Identifier(c)
  {
    var root := ExportRoot + cfg.bucket + "/" + cfg.prefix;
    var j := Join("/", Identifier(c));
    assert S3Url(c, cfg) == root + j;
    assert (root + j)[|root|..] == j;
    SplitJoin('/', Identifier(c));
  }

  // ---------------------------------------------------------------------------
  // The fragments the handler compiles

  // Long literals are written in pieces of at most 40 characters, which the
  // verifier can see into.
  const CreateTemplate := CreateHead + "$table AS $select_statement"
  const CreateHead := "CREATE OR REPLACE TABLE "
  const CopyTemplate := CopyHead + "$table) TO $url" + CopyOptions
  const CopyHead := "COPY (SELECT * FROM "
  const CountTemplate := "SELECT count(*) FROM $table"
  const DescribeTemplate := "DESCRIBE $table"
  const LoadTemplate := LoadHead + "$url)"
  const LoadHead := "SELECT * FROM read_parquet("

  /** The options clause the export statement ends with: Parquet files,
      zstd-compressed, split at 256 MB, replacing what is at the URL. */
  const CopyOptions := " (FORMAT parquet, COMPRESSION zstd," + " FILE_SIZE_BYTES '256m', OVERWRITE true)"

  function CreateFragment(c: ContextInfo, select: Sql): Sql {
    Sql(CreateTemplate, [Bind("table", Text(TableName(c))), Bind("select_statement", Nested(select))])
  }

  function CopyFragment(c: ContextInfo, cfg: Config): Sql {
    Sql(CopyTemplate, [Bind("table", Text(TableName(c))), Bind("url", Text(S3Url(c, cfg)))])
  }

  function CountFragment(c: ContextInfo): Sql {
    Sql(CountTemplate, [Bind("table", Text(TableName(c)))])
  }

  function DescribeFragment(c: ContextInfo): Sql {
    Sql(DescribeTemplate, [Bind("table", Text(TableName(c)))])
  }

  /** `load_input`: a fragment that reads every file under the export URL. It
      only builds the fragment; nothing is executed. */
  function LoadInput(c: ContextInfo, cfg: Config): Sql {
    Sql(LoadTemplate, [Bind("url", Text(S3Url(c, cfg) + "/*"))])
  }

  // ---------------------------------------------------------------------------
  // The statement texts, written out

  function CreateText(esc: string -> string, table: string, query: string): string {
    CreateHead + Quote(esc, table) + " AS " + Parens(query)
  }

  function CopyText(esc: string -> string, table: string, url: string): string {
    CopyHead + Quote(esc, table) + ") TO " + Quote(esc, url) + CopyOptions
  }

  function CountText(esc: string -> string, table: string): string {
    "SELECT count(*) FROM " + Quote(esc, table)
  }

  function DescribeText(esc: string -> string, table: string): string {
    "DESCRIBE " + Quote(esc, table)
  }

  function LoadText(esc: string -> string, url: string): string {
    LoadHead + Quote(esc, url) + ")"
  }

  /** The four statements of a successful `handle_output`, in order, for the
      compiled select `query`. */
  function Statements(c: ContextInfo, cfg: Config, esc: string -> string, query: string): seq<string> {
    var table := TableName(c);
    [CreateText(esc, table, query), CopyText(esc, table, S3Url(c, cfg)), CountText(esc, table), DescribeText(esc, table)]
  }

  lemma ConstantNames()
    ensures IsName("table") && IsName("select_statement") && IsName("url")
  {
  }

  /** The table statement is the quoted table name and the parenthesised select,
      and it fails exactly as the select does. */
  lemma CreateCompiles(c: ContextInfo, select: Sql, esc: string -> string)
    ensures Compile(CreateFragment(c, select), esc)
         == (match Compile(select, esc)
             case Ok(q) => Ok(CreateText(esc, TableName(c), q))
             case Err(e) => Err(e))
  {
    var s := CreateFragment(c, select);
    var table := Quote(esc, TableName(c));
    assert Replacements(s, 1, esc) == Ok(map["table" := table]);
    match Compile(select, esc)
    case Ok(q) =>
      assert Render(s.bindings[1], esc) == Ok(Parens(q));
      var m := map["table" := table, "select_statement" := Parens(q)];
      assert Replacements(s, 2, esc) == Ok(m);
      CreateSubstitution(table, q, m);
    case Err(e) =>
      assert Render(s.bindings[1], esc) == Err(e);
  }

  lemma CreateSubstitution(table: string, q: string, m: map<string, string>)
    requires m == map["table" := table, "select_statement" := Parens(q)]
    ensures SafeSubstitute(CreateTemplate, m) == CreateHead + table + " AS " + Parens(q)
  {
    ConstantNames();
    var n := "$table AS $select_statement";
    assert n == "$" + "table" + " AS " + "$" + "select_statement";
    assert CreateTemplate == CreateHead + n + "";
    Regroup(CreateHead, "table", " AS ", "select_statement", "");
    SubstituteTwoNamed(CreateHead, "table", " AS ", "select_statement", "", m);
    Ungroup(CreateHead, table, " AS ", Parens(q), "");
    assert CreateHead + table + " AS " + Parens(q) + "" == CreateHead + table + " AS " + Parens(q);
  }

  lemma CopyCompiles(c: ContextInfo, cfg: Config, esc: string -> string)
    ensures Compile(CopyFragment(c, cfg), esc) == Ok(CopyText(esc, TableName(c), S3Url(c, cfg)))
  {
    var s := CopyFragment(c, cfg);
    var table, url := Quote(esc, TableName(c)), Quote(esc, S3Url(c, cfg));
    var m := map["table" := table, "url" := url];
    assert Replacements(s, 1, esc) == Ok(map["table" := table]);
    assert Replacements(s, 2, esc) == Ok(m);
    CopySubstitution(table, url, m);
  }

  lemma CopySubstitution(table: string, url: string, m: map<string, string>)
    requires m == map["table" := table, "url" := url]
    ensures SafeSubstitute(CopyTemplate, m) == CopyHead + table + ") TO " + url + CopyOptions
  {
    ConstantNames();
    CopyOptionsPlain();
    assert "$table) TO $url" == "$" + "table" + ") TO " + "$" + "url";
    Regroup(CopyHead, "table", ") TO ", "url", CopyOptions);
    SubstituteTwoNamed(CopyHead, "table", ") TO ", "url", CopyOptions, m);
    Ungroup(CopyHead, table, ") TO ", url, CopyOptions);
  }

  lemma CopyOptionsPlain()
    ensures '$' !in CopyOptions && EndsName(CopyOptions)
  {
    assert CopyOptions[0] == ' ';
    var a := " (FORMAT parquet, COMPRESSION zstd,";
    var b := " FILE_SIZE_BYTES '256m', OVERWRITE true)";
    assert '$' !in a;
    assert '$' !in b;
  }

  lemma Regroup(h: string, n1: string, p2: string, n2: string, o: string)
    ensures h + ("$" + n1 + p2 + "$" + n2) + o == h + ("$" + n1 + (p2 + ("$" + n2 + o)))
  {
  }

  lemma Ungroup(h: string, t: string, p2: string, u: string, o: string)
    ensures h + (t + (p2 + (u + o))) == h + t + p2 + u + o
  {
  }

  lemma CountCompiles(c: ContextInfo, esc: string -> string)
    ensures Compile(CountFragment(c), esc) == Ok(CountText(esc, TableName(c)))
  {
    var s := CountFragment(c);
    var table := Quote(esc, TableName(c));
    var m := map["table" := table];
    assert Replacements(s, 1, esc) == Ok(m);
    OneTableSubstitution(CountTemplate, "SELECT count(*) FROM ", table, m);
  }

  lemma DescribeCompiles(c: ContextInfo, esc: string -> string)
    ensures Compile(DescribeFragment(c), esc) == Ok(DescribeText(esc, TableName(c)))
  {
    var s := DescribeFragment(c);
    var table := Quote(esc, TableName(c));
    var m := map["table" := table];
    assert Replacements(s, 1, esc) == Ok(m);
    OneTableSubstitution(DescribeTemplate, "DESCRIBE ", table, m);
  }

  /** A template that is a literal run and then `$table`. */
  lemma OneTableSubstitution(t: string, p: string, table: string, m: map<string, string>)
    requires t == p + "$table" && '$' !in p
    requires m == map["table" := table]
    ensures SafeSubstitute(t, m) == p + table
  {
    ConstantNames();
    assert t == p + ("$" + "table" + "");
    SubstituteOneNamed(p, "table", "", m);
    assert p + (table + "") == p + table;
  }

  lemma LoadCompiles(c: ContextInfo, cfg: Config, esc: string -> string)
    ensures Compile(LoadInput(c, cfg), esc) == Ok(LoadText(esc, S3Url(c, cfg) + "/*"))
  {
    var s := LoadInput(c, cfg);
    var url := Quote(esc, S3Url(c, cfg) + "/*");
    var m := map["url" := url];
    assert Replacements(s, 1, esc) == Ok(m);
    ConstantNames();
    assert "$url)" == "$" + "url" + ")";
    SubstituteOneNamed(LoadHead, "url", ")", m);
    assert LoadHead + (url + ")") == LoadHead + url + ")";
  }

  /** The load fragment reads, through a trailing wildcard segment, every file under the
      URL the export statement of the same identifier writes to. */
  lemma LoadReadsExport(ci: ContextInfo, co: ContextInfo, cfg: Config, esc: string -> string)
    requires Identifier(ci) == Identifier(co)
    ensures Compile(LoadInput(ci, cfg), esc) == Ok(LoadText(esc, S3Url(co, cfg) + "/*"))
    ensures LoadInput(ci, cfg).bindings == [Bind("url", Text(S3Url(co, cfg) + "/*"))]
    ensures Compile(CopyFragment(co, cfg), esc) == Ok(CopyText(esc, TableName(co), S3Url(co, cfg)))
  {
    LoadCompiles(ci, cfg, esc);
    assert S3Url(ci, cfg) == S3Url(co, cfg);
    CopyCompiles(co, cfg, esc);
  }

  /** A downstream asset that joins two upstream assets binds each one's loaded
      fragment under its own name: the compiled select reads each upstream
      export, as a parenthesised subquery, at the place of its placeholder. */
  lemma DownstreamReadsUpstreamExports(p1: string, n1: string, p2: string, n2: string, p3: string,
                                       c1: ContextInfo, c2: ContextInfo, cfg: Config, esc: string -> string)
    requires '$' !in p1 && '$' !in p2 && '$' !in p3
    requires IsName(n1) && IsName(n2) && n1 != n2 && EndsName(p2) && EndsName(p3)
    ensures var s := Sql(p1 + ("$" + n1 + (p2 + ("$" + n2 + p3))),
                         [Bind(n1, Nested(LoadInput(c1, cfg))), Bind(n2, Nested(LoadInput(c2, cfg)))]);
      var r1 := Parens(LoadText(esc, S3Url(c1, cfg) + "/*"));
      var r2 := Parens(LoadText(esc, S3Url(c2, cfg) + "/*"));
      Compile(s, esc) == Ok(p1 + (r1 + (p2 + (r2 + p3))))
  {
    var s := Sql(p1 + ("$" + n1 + (p2 + ("$" + n2 + p3))),
                 [Bind(n1, Nested(LoadInput(c1, cfg))), Bind(n2, Nested(LoadInput(c2, cfg)))]);
    var r1 := Parens(LoadText(esc, S3Url(c1, cfg) + "/*"));
    var r2 := Parens(LoadText(esc, S3Url(c2, cfg) + "/*"));
    LoadCompiles(c1, cfg, esc);
    LoadCompiles(c2, cfg, esc);
    assert Render(s.bindings[0], esc) == Ok(r1);
    assert Render(s.bindings[1], esc) == Ok(r2);
    assert Replacements(s, 1, esc) == Ok(map[n1 := r1]);
    var m := map[n1 := r1, n2 := r2];
    assert Replacements(s, 2, esc) == Ok(m);
    SubstituteTwoNamed(p1, n1, p2, n2, p3, m);
  }

  // ---------------------------------------------------------------------------
  // Metadata

  /** The row-count key: a partition's count or the whole table's. */
  datatype CountKey = RowCount | PartitionRowCount

  /** One entry of the column schema. */
  datatype Column = Column(name: string, columnType: string)

  /** The metadata `handle_output` attaches to the output. */
  datatype Metadata = Metadata(countKey: CountKey, count: int, columns: seq<Column>)

  /** The column schema: one (name, type) pair per `DESCRIBE` row, from its first
      two fields, in row order. */
  function Columns(rows: seq<seq<string>>): (cols: seq<Column>)
    requires forall i :: 0 <= i < |rows| ==> |rows[i]| >= 2
    ensures |cols| == |rows|
    ensures forall i :: 0 <= i < |rows| ==> cols[i] == Column(rows[i][0], rows[i][1])
  {
    if rows == [] then [] else [Column(rows[0][0], rows[0][1])] + Columns(rows[1..])
  }

  /** The metadata built from the count row and the `DESCRIBE` rows, or the index
      error raised when a row is too short. */
  function BuildMetadata(c: ContextInfo, countRow: seq<int>, rows: seq<seq<string>>): (r: Result<Metadata, HandlerError>)
    ensures r.Ok? <==> |countRow| > 0 && forall i :: 0 <= i < |rows| ==> |rows[i]| >= 2
    ensures r.Err? ==> r.error == RowIndexError
    ensures r.Ok? ==>
      r.value.countKey == (if c.hasPartitionKey then PartitionRowCount else RowCount) &&
      r.value.count == countRow[0] &&
      |r.value.columns| == |rows| &&
      forall i :: 0 <= i < |rows| ==> r.value.columns[i] == Column(rows[i][0], rows[i][1])
  {
    if |countRow| == 0 || exists i :: 0 <= i < |rows| && |rows[i]| < 2 then Err(RowIndexError)
    else Ok(Metadata(if c.hasPartitionKey then PartitionRowCount else RowCount, countRow[0], Columns(rows)))
  }

  // ---------------------------------------------------------------------------
  // handle_output

  /** What an asset returned. */
  datatype Output = NoOutput | Query(select: Sql) | NotSql(description: string)

  datatype HandlerError =
    | InvalidOutputType                   // the output is not a `SQL`
    | CompileFailed(error: CompileError)  // the select has an unsupported binding
    | ExecutionFailed(statement: string)  // the engine raised on this statement
    | RowIndexError                       // a result row is too short

  datatype Outcome = Done | Failed(error: HandlerError)

  /** How far the statement sequence got: still going after the statements
      issued so far, or stopped by an error. */
  datatype Progress = Running(issued: seq<string>) | Stopped(issued: seq<string>, error: HandlerError)

  /** Issues a compiled statement, unless an earlier step stopped the run. A
      compile error stops before issuing; a statement the engine fails on is
      issued and then stops the run. */
  function Issue(p: Progress, compiled: Result<string, CompileError>, rejects: set<string>): Progress {
    match p
    case Stopped(_, _) => p
    case Running(done) =>
      match compiled
      case Err(e) => Stopped(done, CompileFailed(e))
      case Ok(stmt) =>
        if stmt in rejects then Stopped(done + [stmt], ExecutionFailed(stmt))
        else Running(done + [stmt])
  }

  /** The effect of one `handle_output` call: the statements issued, in order,
      the metadata added, and how it ends. */
  datatype Effect = Effect(issued: seq<string>, added: seq<Metadata>, outcome: Outcome)

  /** The table, export, count and describe statements, issued in that order. */
  function RunStatements(c: ContextInfo, cfg: Config, esc: string -> string, select: Sql,
                         rejects: set<string>): Progress
  {
    var p1 := Issue(Running([]), Compile(CreateFragment(c, select), esc), rejects);
    var p2 := Issue(p1, Compile(CopyFragment(c, cfg), esc), rejects);
    var p3 := Issue(p2, Compile(CountFragment(c), esc), rejects);
    Issue(p3, Compile(DescribeFragment(c), esc), rejects)
  }

  /** What follows the statements: the metadata, when all four ran. */
  function Finish(p: Progress, c: ContextInfo, countRow: seq<int>, rows: seq<seq<string>>): Effect {
    match p
    case Stopped(issued, e) => Effect(issued, [], Failed(e))
    case Running(issued) =>
      match BuildMetadata(c, countRow, rows)
      case Ok(md) => Effect(issued, [md], Done)
      case Err(e) => Effect(issued, [], Failed(e))
  }

  function HandleOutputEffect(c: ContextInfo, cfg: Config, esc: string -> string, output: Output,
                              rejects: set<string>, countRow: seq<int>, rows: seq<seq<string>>): Effect
  {
    match output
    case NoOutput => Effect([], [], Done)
    case NotSql(_) => Effect([], [], Failed(InvalidOutputType))
    case Query(select) => Finish(RunStatements(c, cfg, esc, select, rejects), c, countRow, rows)
  }

  /** Index of the first statement the engine fails on, `|stmts|` when none. */
  function FirstRejected(stmts: seq<string>, rejects: set<string>): (k: nat)
    ensures k <= |stmts|
    ensures forall j :: 0 <= j < k ==> stmts[j] !in rejects
    ensures k < |stmts| ==> stmts[k] in rejects
  {
    if stmts == [] then 0
    else if stmts[0] in rejects then 0
    else 1 + FirstRejected(stmts[1..], rejects)
  }

  /** No output issues nothing and adds nothing; an output that is not a `SQL`,
      or a select that does not compile, fails before any statement is issued. */
  lemma NothingIssuedBeforeTheSelectCompiles(c: ContextInfo, cfg: Config, esc: string -> string, output: Output,
                                             rejects: set<string>, countRow: seq<int>, rows: seq<seq<string>>)
    requires !output.Query? || Compile(output.select, esc).Err?
    ensures var e := HandleOutputEffect(c, cfg, esc, output, rejects, countRow, rows);
      e.issued == [] && e.added == [] &&
      e.outcome == (match output
                    case NoOutput => Done
                    case NotSql(_) => Failed(InvalidOutputType)
                    case Query(select) => Failed(CompileFailed(Compile(select, esc).error)))
  {
    if output.Query? {
      CreateCompiles(c, output.select, esc);
    }
  }

  /** Four statements that compiled, issued in turn from the start. */
  lemma IssueFour(stmts: seq<string>, rejects: set<string>)
    requires |stmts| == 4
    ensures var k := FirstRejected(stmts, rejects);
      var p1 := Issue(Running([]), Ok(stmts[0]), rejects);
      var p2 := Issue(p1, Ok(stmts[1]), rejects);
      var p3 := Issue(p2, Ok(stmts[2]), rejects);
      Issue(p3, Ok(stmts[3]), rejects) ==
        if k < 4 then Stopped(stmts[..k + 1], ExecutionFailed(stmts[k])) else Running(stmts)
  {
    var p1 := Issue(Running([]), Ok(stmts[0]), rejects);
    var p2 := Issue(p1, Ok(stmts[1]), rejects);
    var p3 := Issue(p2, Ok(stmts[2]), rejects);
    var p4 := Issue(p3, Ok(stmts[3]), rejects);
    FirstRejectedOfFour(stmts, rejects);
    assert [] + [stmts[0]] == stmts[..1];
    assert stmts[..1] + [stmts[1]] == stmts[..2];
    assert stmts[..2] + [stmts[2]] == stmts[..3];
    assert stmts[..3] + [stmts[3]] == stmts[..4] == stmts;
    if stmts[0] in rejects {
      assert p1 == Stopped(stmts[..1], ExecutionFailed(stmts[0]));
      assert p4 == p3 == p2 == p1;
    } else if stmts[1] in rejects {
      assert p1 == Running(stmts[..1]);
      assert p2 == Stopped(stmts[..2], ExecutionFailed(stmts[1]));
      assert p4 == p3 == p2;
    } else if stmts[2] in rejects {
      assert p2 == Running(stmts[..2]);
      assert p3 == Stopped(stmts[..3], ExecutionFailed(stmts[2]));
      assert p4 == p3;
    } else {
      assert p3 == Running(stmts[..3]);
    }
  }

  lemma FirstRejectedOfFour(stmts: seq<string>, rejects: set<string>)
    requires |stmts| == 4
    ensures FirstRejected(stmts, rejects) ==
      if stmts[0] in rejects then 0
      else if stmts[1] in rejects then 1
      else if stmts[2] in rejects then 2
      else if stmts[3] in rejects then 3
      else 4
  {
    var k := FirstRejected(stmts, rejects);
    if k < 4 {
      assert stmts[k] in rejects;
    }
  }

  /** A select that compiles: the four statements are issued in order up to
      and including the first one the engine fails on. */
  lemma StatementsStopAtFirstFailure(c: ContextInfo, cfg: Config, esc: string -> string, select: Sql,
                                     rejects: set<string>)
    requires Compile(select, esc).Ok?
    ensures var stmts := Statements(c, cfg, esc, Compile(select, esc).value);
      var k := FirstRejected(stmts, rejects);
      RunStatements(c, cfg, esc, select, rejects) ==
        if k < 4 then Stopped(stmts[..k + 1], ExecutionFailed(stmts[k])) else Running(stmts)
  {
    CreateCompiles(c, select, esc);
    CopyCompiles(c, cfg, esc);
    CountCompiles(c, esc);
    DescribeCompiles(c, esc);
    IssueFour(Statements(c, cfg, esc, Compile(select, esc).value), rejects);
  }

  /** A select that compiles: the handler issues the four statements in order,
      all naming the same quoted table, up to and including the first one the
      engine fails on; metadata is added, once, only when all four succeed and
      the result rows are long enough. */
  lemma QueryRun(c: ContextInfo, cfg: Config, esc: string -> string, select: Sql,
                 rejects: set<string>, countRow: seq<int>, rows: seq<seq<string>>)
    requires Compile(select, esc).Ok?
    ensures var stmts := Statements(c, cfg, esc, Compile(select, esc).value);
      var e := HandleOutputEffect(c, cfg, esc, Query(select), rejects, countRow, rows);
      var k := FirstRejected(stmts, rejects);
      (k < 4 ==> e.issued == stmts[..k + 1] && e.added == [] && e.outcome == Failed(ExecutionFailed(stmts[k]))) &&
      (k == 4 ==> (e.issued == stmts &&
        (match BuildMetadata(c, countRow, rows)
         case Ok(md) => e.added == [md] && e.outcome == Done
         case Err(err) => e.added == [] && e.outcome == Failed(err))))
  {
    StatementsStopAtFirstFailure(c, cfg, esc, select, rejects);
  }

  /** A successful run: exactly the four statements, and one metadata record
      whose count key follows `has_partition_key`, whose count is the first
      field of the count row and whose schema has one column per `DESCRIBE` row. */
  lemma SuccessfulRun(c: ContextInfo, cfg: Config, esc: string -> string, output: Output,
                      rejects: set<string>, countRow: seq<int>, rows: seq<seq<string>>)
    requires output.Query?
    requires HandleOutputEffect(c, cfg, esc, output, rejects, countRow, rows).outcome == Done
    ensures Compile(output.select, esc).Ok?
    ensures var e := HandleOutputEffect(c, cfg, esc, output, rejects, countRow, rows);
      var q := Compile(output.select, esc).value;
      var table := TableName(c);
      e.issued == [CreateText(esc, table, q), CopyText(esc, table, S3Url(c, cfg)), CountText(esc, table), DescribeText(esc, table)] &&
      |e.added| == 1 &&
      e.added[0].countKey == (if c.hasPartitionKey then PartitionRowCount else RowCount) &&
      e.added[0].count == countRow[0] &&
      |e.added[0].columns| == |rows| &&
      forall i :: 0 <= i < |rows| ==> e.added[0].columns[i] == Column(rows[i][0], rows[i][1])
  {
    if Compile(output.select, esc).Err? {
      NothingIssuedBeforeTheSelectCompiles(c, cfg, esc, output, rejects, countRow, rows);
    } else {
      QueryRun(c, cfg, esc, output.select, rejects, countRow, rows);
    }
  }

  // ---------------------------------------------------------------------------
  // The objects handle_output changes

  /** The DuckDB connection, seen as the log of the statements it was given. */
  class Connection {
    /** Statements executed so far, oldest first. */
    var log: seq<string>
    /** The statements the engine raises on. */
    const rejects: set<string>

    constructor (rejects: set<string>)
      ensures log == [] && this.rejects == rejects
    {
      log := [];
      this.rejects := rejects;
    }

    /** `connection.execute(statement)`: records it, and reports whether the
        engine ran it without raising. */
    method Execute(statement: string) returns (ok: bool)
      modifies this
      ensures log == old(log) + [statement]
      ensures ok == (statement !in rejects)
    {
      log := log + [statement];
      ok := statement !in rejects;
    }
  }

  /** Dagster's output context: what the handler reads, and the metadata added to it. */
  class OutputContext {
    const info: ContextInfo
    /** One record per `add_output_metadata` call, oldest first. */
    var metadata: seq<Metadata>

    constructor (info: ContextInfo)
      ensures this.info == info && metadata == []
    {
      this.info := info;
      metadata := [];
    }

    method AddOutputMetadata(md: Metadata)
      modifies this
      ensures metadata == old(metadata) + [md]
    {
      metadata := metadata + [md];
    }
  }

  /** Compiles one statement and executes it, with the effect `Issue` describes:
      nothing when it does not compile, otherwise the statement is logged and
      the run stops when the engine fails on it. */
  method ExecuteFragment(conn: Connection, q: Sql, esc: string -> string, ghost base: seq<string>, ghost p: Progress)
    returns (r: Result<string, HandlerError>)
    requires p.Running? && conn.log == base + p.issued
    modifies conn
    ensures var next := Issue(p, Compile(q, esc), conn.rejects);
      conn.log == base + next.issued && r.Ok? == next.Running? && (r.Err? ==> r.error == next.error)
  {
    var compiled := SqlToString(q, esc);
    if compiled.Err? {
      return Err(CompileFailed(compiled.error));
    }
    var ok := conn.Execute(compiled.value);
    assert conn.log == base + (p.issued + [compiled.value]);
    if !ok {
      return Err(ExecutionFailed(compiled.value));
    }
    return Ok(compiled.value);
  }

  /** `handle_output`: nothing for no output, an error before any statement for
      an output that is not a `SQL`; otherwise the table, export, count and
      describe statements, each compiled and executed in turn, then the
      metadata. */
  method HandleOutput(ctx: OutputContext, output: Output, conn: Connection, cfg: Config, esc: string -> string,
                      countRow: seq<int>, rows: seq<seq<string>>) returns (r: Outcome)
    modifies conn, ctx
    ensures var e := HandleOutputEffect(ctx.info, cfg, esc, output, conn.rejects, countRow, rows);
      conn.log == old(conn.log) + e.issued && ctx.metadata == old(ctx.metadata) + e.added && r == e.outcome
  {
    if output.NoOutput? {
      return Done;
    }
    if output.NotSql? {
      return Failed(InvalidOutputType);
    }
    var c := ctx.info;
    var select := output.select;
    ghost var base := conn.log;
    assert base == base + [];
    ghost var p1 := Issue(Running([]), Compile(CreateFragment(c, select), esc), conn.rejects);
    ghost var p2 := Issue(p1, Compile(CopyFragment(c, cfg), esc), conn.rejects);
    ghost var p3 := Issue(p2, Compile(CountFragment(c), esc), conn.rejects);
    ghost var p4 := Issue(p3, Compile(DescribeFragment(c), esc), conn.rejects);
    assert p4 == RunStatements(c, cfg, esc, select, conn.rejects);

    var step := ExecuteFragment(conn, CreateFragment(c, select), esc, base, Running([]));
    if step.Err? {
      return Failed(step.error);
    }
    step := ExecuteFragment(conn, CopyFragment(c, cfg), esc, base, p1);
    if step.Err? {
      return Failed(step.error);
    }
    step := ExecuteFragment(conn, CountFragment(c), esc, base, p2);
    if step.Err? {
      return Failed(step.error);
    }
    step := ExecuteFragment(conn, DescribeFragment(c), esc, base, p3);
    if step.Err? {
      return Failed(step.error);
    }

    var md := BuildMetadata(c, countRow, rows);
    if md.Err? {
      return Failed(md.error);
    }
    ctx.AddOutputMetadata(md.value);
    return Done;
  }
}
